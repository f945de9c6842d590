/** What the mutator chain guarantees: balanced hook nesting, all-or-nothing marking, the batch program it equals. */
module BulkLaws {
  import opened Wrappers
  import opened BulkChain

  // ---------- The event trace ----------

  // The hooks still to be entered from hook h of builder i on, in (builder, hook) order.
  ghost function Remaining(job: Job, i: nat, h: nat): seq<(nat, nat)>
    requires i <= |job.hooks| && (i < |job.hooks| ==> h <= |job.hooks[i]|)
    decreases |job.hooks| - i, if i < |job.hooks| then |job.hooks[i]| - h else 0
  {
    if i == |job.hooks| then []
    else if h == |job.hooks[i]| then Remaining(job, i + 1, 0)
    else [(i, h)] + Remaining(job, i, h + 1)
  }

  // Hooks entered in order, the events in the middle, the same hooks left in reverse order.
  ghost function Nest(entered: seq<(nat, nat)>, middle: seq<Event>): seq<Event> {
    if entered == [] then middle
    else [Enter(entered[0].0, entered[0].1)] + Nest(entered[1..], middle) + [Exit(entered[0].0, entered[0].1)]
  }

  // The run from w to w' entered the first k of `hooks` and left them in reverse; it called the database
  // at most once, at the centre, and only after entering all of them.
  ghost predicate Balanced(hooks: seq<(nat, nat)>, k: nat, w: World, w': World) {
    && k <= |hooks|
    && (|| (w'.trace == w.trace + Nest(hooks[..k], []) && w'.batches == w.batches)
        || (k == |hooks| && w'.trace == w.trace + Nest(hooks, [Batch])
            && |w'.batches| == |w.batches| + 1 && w.batches <= w'.batches))
  }

  lemma AroundHook(i: nat, h: nat, rest: seq<(nat, nat)>, k: nat, w: World, inner: World)
    requires Balanced(rest, k, w.(trace := w.trace + [Enter(i, h)]), inner)
    ensures Balanced([(i, h)] + rest, k + 1, w, inner.(trace := inner.trace + [Exit(i, h)]))
  {
    var all := [(i, h)] + rest;
    assert all[..k + 1][1..] == rest[..k];
    assert all[1..] == rest;
    assert rest[..|rest|] == rest;
  }

  // However the hooks refuse, answer by themselves, edit, hand on and change outcomes, as long as none calls its
  // successor twice, a run enters an initial stretch of the remaining hooks in order and leaves them in reverse
  // order, with at most one call of the database, in the middle of a complete nesting.
  lemma {:induction false} TraceIsBalanced(job: Job, w: World, i: nat, h: nat, arg: Arg) returns (k: nat)
    requires Fits(job, w) && i < |job.hooks| && h <= |job.hooks[i]|
    ensures Balanced(Remaining(job, i, h), k, w, Invoke(job, w, i, h, arg).world)
    decreases |job.hooks| - i, |job.hooks[i]| - h, 1
  {
    if h == |job.hooks[i]| {
      k := InnermostIsBalanced(job, w, i, arg);
    } else {
      var w1 := w.(trace := w.trace + [Enter(i, h)]);
      var rest := Remaining(job, i, h + 1);
      if job.hooks[i][h].Forward? {
        var Forward(edit, pass, after) := job.hooks[i][h];
        var w2, arg2 := Edited(w1, i, arg, edit), Passed(arg, edit, pass);
        k := TraceIsBalanced(job, w2, i, h + 1, arg2);
        AroundHook(i, h, rest, k, w, Invoke(job, w2, i, h + 1, arg2).world);
      } else {
        k := 0;
        AroundHook(i, h, rest, k, w, w1);
      }
      k := k + 1;
    }
  }

  lemma {:induction false} InnermostIsBalanced(job: Job, w: World, i: nat, arg: Arg) returns (k: nat)
    requires Fits(job, w) && i < |job.hooks|
    ensures Balanced(Remaining(job, i, |job.hooks[i]|), k, w, Innermost(job, w, i, arg).world)
    decreases |job.hooks| - i, 0, 0
  {
    k := 0;
    if !arg.Alien? && Check(w.slots[i].fields).None? {
      var w1 := w.(slots := w.slots[i := Built(w.slots[i], arg, job.conflicts[i])]);
      if i + 1 < |job.hooks| {
        k := TraceIsBalanced(job, w1, i + 1, 0, Own);
      }
    }
  }

  // ---------- All or nothing ----------

  // Where a run turns round, and with what outcome: at a hook that refuses or answers by itself, in a closure
  // that does not accept its mutation, or, as builder |job.hooks|, at the database.
  datatype Turn = Turn(builder: nat, hook: nat, err: Option<Error>)

  function ReplyError(r: Reply): Option<Error> {
    match r
    case Inserted(_) => None
    case Rejected(code, constraint) => Some(if constraint then ConstraintError(code) else DriverError(code))
  }

  // The turning point of a run from hook h of builder i, found without running anything back.
  ghost function TurnAt(job: Job, slots: seq<Slot>, i: nat, h: nat, arg: Arg): (t: Turn)
    requires i < |job.hooks| == |job.conflicts| == |slots| && h <= |job.hooks[i]|
    ensures i <= t.builder <= |job.hooks| && (t.builder == i ==> h <= t.hook)
    ensures if t.builder < |job.hooks| then t.hook <= |job.hooks[t.builder]| else t.hook == 0
    decreases |job.hooks| - i, |job.hooks[i]| - h
  {
    if h == |job.hooks[i]| then
      if arg.Alien? then Turn(i, h, Some(UnexpectedMutation))
      else if Check(slots[i].fields).Some? then Turn(i, h, Check(slots[i].fields))
      else
        var slots1 := slots[i := Built(slots[i], arg, job.conflicts[i])];
        if i + 1 < |job.hooks| then TurnAt(job, slots1, i + 1, 0, Own)
        else Turn(i + 1, 0, ReplyError(job.reply(Specs(slots1), job.conflict)))
    else
      match job.hooks[i][h]
      case Veto(code) => Turn(i, h, Some(HookError(code)))
      case Skip => Turn(i, h, None)
      case Forward(edit, pass, _) =>
        TurnAt(job, Edited(World(slots, [], []), i, arg, edit).slots, i, h + 1, Passed(arg, edit, pass))
  }

  // The outcome of the turn as it arrives outside hook h of builder i, after every hook on the way back.
  ghost function Arrives(job: Job, i: nat, h: nat, t: Turn): Option<Error>
    requires i <= |job.hooks| && (i < |job.hooks| ==> h <= |job.hooks[i]|)
    decreases |job.hooks| - i, if i < |job.hooks| then |job.hooks[i]| - h else 0
  {
    if i == |job.hooks| || (i == t.builder && h == t.hook) then t.err
    else if h == |job.hooks[i]| then Arrives(job, i + 1, 0, t)
    else if job.hooks[i][h].Forward? then job.hooks[i][h].after(Arrives(job, i, h + 1, t))
    else t.err
  }

  // The ids the database assigned during the run from w to w', if it was called and inserted the rows.
  ghost function InsertedIds(job: Job, w: World, w': World): Option<seq<Option<int>>> {
    if |w.batches| < |w'.batches| then
      match job.reply(w'.batches[|w.batches|], job.conflict)
      case Inserted(ids) => Some(ids)
      case Rejected(_, _) => None
    else None
  }

  ghost function IdOf(ids: Option<seq<Option<int>>>, j: nat): Option<int> {
    if ids.Some? then IdAt(ids.value, j) else None
  }

  // A finished builder: done, its mutation's id pointer at its node, and that node carrying the assigned id.
  ghost predicate Complete(slot: Slot, id: Option<int>) {
    && slot.done && slot.linked
    && slot.node == Some(Node(if id.Some? then id.value else 0, slot.fields))
  }

  ghost predicate Fresh(slots: seq<Slot>, i: nat) {
    forall j | i <= j < |slots| :: !slots[j].done
  }

  // What a run from hook h of builder i that turns at t leaves behind.
  ghost predicate RunFacts(job: Job, i: nat, h: nat, t: Turn, w: World, r: Outcome)
    requires Fits(job, w) && Fits(job, r.world) && i <= |job.hooks| && (i < |job.hooks| ==> h <= |job.hooks[i]|)
  {
    var ids := InsertedIds(job, w, r.world);
    && r.err == Arrives(job, i, h, t)
    && (if t.builder == |job.hooks| then |w.batches| < |r.world.batches| else r.world.batches == w.batches)
    && (ids.Some? <==> t.builder == |job.hooks| && t.err.None?)
    && (forall j | i <= j < |w.slots| ::
          r.world.slots[j].done <==> j < t.builder && Arrives(job, j + 1, 0, t).None?)
    && (forall j | i <= j < |w.slots| && r.world.slots[j].done :: Complete(r.world.slots[j], IdOf(ids, j)))
    && (forall j | 0 <= j < i ::
          r.world.slots[j] == if ids.Some? then WithId(w.slots[j], IdAt(ids.value, j)) else w.slots[j])
  }

  lemma {:induction false} RunHasFacts(job: Job, w: World, i: nat, h: nat, arg: Arg)
    requires Fits(job, w) && i < |job.hooks| && h <= |job.hooks[i]| && Fresh(w.slots, i)
    ensures RunFacts(job, i, h, TurnAt(job, w.slots, i, h, arg), w, Invoke(job, w, i, h, arg))
    decreases |job.hooks| - i, |job.hooks[i]| - h, 1
  {
    if h == |job.hooks[i]| {
      InnermostHasFacts(job, w, i, arg);
    } else if job.hooks[i][h].Forward? {
      var w1 := Edited(w.(trace := w.trace + [Enter(i, h)]), i, arg, job.hooks[i][h].edit);
      var arg1 := Passed(arg, job.hooks[i][h].edit, job.hooks[i][h].pass);
      RunHasFacts(job, w1, i, h + 1, arg1);
      HookHasFacts(job, w, w1, i, h, TurnAt(job, w1.slots, i, h + 1, arg1), Invoke(job, w1, i, h + 1, arg1));
    }
  }

  // A hook on the way changes the outcome, the trace and its own builder only.
  lemma HookHasFacts(job: Job, w: World, w1: World, i: nat, h: nat, t: Turn, r: Outcome)
    requires Fits(job, w) && Fits(job, w1) && Fits(job, r.world) && i < |job.hooks| && h < |job.hooks[i]|
    requires job.hooks[i][h].Forward? && w1.batches == w.batches
    requires forall j | 0 <= j < i :: w1.slots[j] == w.slots[j]
    requires RunFacts(job, i, h + 1, t, w1, r) && (t.builder == i ==> h < t.hook)
    ensures RunFacts(job, i, h, t, w,
                     Outcome(r.world.(trace := r.world.trace + [Exit(i, h)]), job.hooks[i][h].after(r.err)))
  {
  }

  lemma {:induction false} InnermostHasFacts(job: Job, w: World, i: nat, arg: Arg)
    requires Fits(job, w) && i < |job.hooks| && Fresh(w.slots, i)
    ensures RunFacts(job, i, |job.hooks[i]|, TurnAt(job, w.slots, i, |job.hooks[i]|, arg), w, Innermost(job, w, i, arg))
    decreases |job.hooks| - i, 0, 0
  {
    if !arg.Alien? && Check(w.slots[i].fields).None? {
      var w1 := w.(slots := w.slots[i := Built(w.slots[i], arg, job.conflicts[i])]);
      if i + 1 < |job.hooks| {
        RunHasFacts(job, w1, i + 1, 0, Own);
        ClosureHasFacts(job, w, i, arg, TurnAt(job, w1.slots, i + 1, 0, Own), Invoke(job, w1, i + 1, 0, Own));
      } else {
        BatchHasFacts(job, w1);
        var t := Turn(i + 1, 0, ReplyError(job.reply(Specs(w1.slots), job.conflict)));
        ClosureHasFacts(job, w, i, arg, t, RunBatch(job, w1));
      }
    }
  }

  lemma BatchHasFacts(job: Job, w: World)
    requires Fits(job, w)
    ensures var n := |job.hooks|;
      RunFacts(job, n, 0, Turn(n, 0, ReplyError(job.reply(Specs(w.slots), job.conflict))), w, RunBatch(job, w))
  {
    assert (w.batches + [Specs(w.slots)])[|w.batches|] == Specs(w.slots);
  }

  // Closure i builds, runs what is behind it, and finishes if that succeeded.
  lemma ClosureHasFacts(job: Job, w: World, i: nat, arg: Arg, t: Turn, inner: Outcome)
    requires Fits(job, w) && Fits(job, inner.world) && i < |job.hooks| && Fresh(w.slots, i)
    requires !arg.Alien? && i < t.builder
    requires RunFacts(job, i + 1, 0, t, w.(slots := w.slots[i := Built(w.slots[i], arg, job.conflicts[i])]), inner)
    ensures RunFacts(job, i, |job.hooks[i]|, t, w,
      if inner.err.Some? then inner
      else inner.(world := inner.world.(slots := inner.world.slots[i := Finished(inner.world.slots[i])])))
  {
    assert Arrives(job, i, |job.hooks[i]|, t) == Arrives(job, i + 1, 0, t);
  }

  ghost function SaveTurn(job: Job, w: World): Turn
    requires Fits(job, w) && |job.hooks| > 0
  {
    TurnAt(job, w.slots, 0, 0, Own)
  }

  // The turning point decides everything: rows are inserted exactly when the run turned at the database with
  // success; the save reports what arrives of the turn's outcome; and a builder ends done, with the id assigned
  // to it if there is one, exactly when its closure was passed and the outcome arrives at it as success.
  lemma SaveIsAllOrNothing(job: Job, w: World)
    requires Fits(job, w) && |job.hooks| > 0 && Fresh(w.slots, 0)
    ensures var r := Save(job, w);
      var t := SaveTurn(job, w);
      var ids := InsertedIds(job, w, r.world);
      && r.err == Arrives(job, 0, 0, t)
      && (ids.Some? <==> t.builder == |job.hooks| && t.err.None?)
      && (forall j | 0 <= j < |w.slots| ::
            r.world.slots[j].done <==> j < t.builder && Arrives(job, j + 1, 0, t).None?)
      && (forall j | 0 <= j < |w.slots| && r.world.slots[j].done :: Complete(r.world.slots[j], IdOf(ids, j)))
  {
    RunHasFacts(job, w, 0, 0, Own);
  }

  // The id that the database gave to row j of the first batch after the given number of them; 0 if it gave none.
  ghost function GivenId(reply: (seq<Option<Spec>>, seq<nat>) -> Reply, conflict: seq<nat>,
                         before: nat, batches: seq<seq<Option<Spec>>>, j: nat): int
  {
    if before < |batches| then
      match reply(batches[before], conflict)
      case Inserted(ids) => if j < |ids| && ids[j].Some? then ids[j].value else 0
      case Rejected(_, _) => 0
    else 0
  }

  // Every builder that ends done has the id that the database gave to its own row.
  lemma IdsReachTheirBuilders(job: Job, w: World)
    requires Fits(job, w) && Fresh(w.slots, 0)
    ensures var r := Save(job, w);
      forall j | 0 <= j < |w.slots| && r.world.slots[j].done ::
        && r.world.slots[j].node.Some? && r.world.slots[j].linked
        && r.world.slots[j].node.value.id == GivenId(job.reply, job.conflict, |w.batches|, r.world.batches, j)
  {
    if |job.hooks| > 0 { SaveIsAllOrNothing(job, w); }
  }

  // ---------- When success means rows ----------

  // No hook answers on its own without calling its successor.
  ghost predicate NoSkip(job: Job) {
    forall i, h | 0 <= i < |job.hooks| && 0 <= h < |job.hooks[i]| :: !job.hooks[i][h].Skip?
  }

  // No hook turns an error of its successor into success.
  ghost predicate KeepsErrors(job: Job) {
    forall i, h, e | 0 <= i < |job.hooks| && 0 <= h < |job.hooks[i]| && job.hooks[i][h].Forward? ::
      job.hooks[i][h].after(Some(e)).Some?
  }

  // The hook lets success through.
  predicate Clean(hook: Hook) {
    hook.Forward? ==> hook.after(None).None?
  }

  ghost predicate CleanFrom(job: Job, i: nat, h: nat) {
    forall k, x | 0 <= k < |job.hooks| && 0 <= x < |job.hooks[k]| && !Precedes((k, x), (i, h)) ::
      Clean(job.hooks[k][x])
  }

  // A run turns before any hook that does not call its successor, and an outcome of success away from the
  // database comes from a hook that answered by itself.
  lemma {:induction false} TurnIsAtFirstStop(job: Job, slots: seq<Slot>, i: nat, h: nat, arg: Arg)
    requires i < |job.hooks| == |job.conflicts| == |slots| && h <= |job.hooks[i]|
    ensures var t := TurnAt(job, slots, i, h, arg);
      && (forall k, x | 0 <= k < |job.hooks| && 0 <= x < |job.hooks[k]| && !Precedes((k, x), (i, h)) ::
            Precedes((k, x), (t.builder, t.hook)) ==> job.hooks[k][x].Forward?)
      && (t.builder < |job.hooks| && t.err.None? ==>
            t.hook < |job.hooks[t.builder]| && job.hooks[t.builder][t.hook].Skip?)
    decreases |job.hooks| - i, |job.hooks[i]| - h
  {
    var t := TurnAt(job, slots, i, h, arg);
    if h < |job.hooks[i]| && job.hooks[i][h].Forward? {
      var Forward(edit, pass, _) := job.hooks[i][h];
      TurnIsAtFirstStop(job, Edited(World(slots, [], []), i, arg, edit).slots, i, h + 1, Passed(arg, edit, pass));
      forall k: nat, x: nat | !Precedes((k, x), (i, h)) ensures (k, x) == (i, h) || !Precedes((k, x), (i, h + 1)) {}
    } else if h == |job.hooks[i]| && t.builder > i && i + 1 < |job.hooks| {
      TurnIsAtFirstStop(job, slots[i := Built(slots[i], arg, job.conflicts[i])], i + 1, 0, Own);
    }
  }

  // A hook that answers by itself anywhere keeps every save from the database, and only builders before it
  // can end done; they do, and the save succeeds, when the run gets there and the hooks let success through.
  lemma SkippingHookSavesNothing(job: Job, w: World, k: nat, x: nat)
    requires Fits(job, w) && Fresh(w.slots, 0)
    requires k < |job.hooks| && x < |job.hooks[k]| && job.hooks[k][x].Skip?
    ensures var r := Save(job, w);
      && r.world.batches == w.batches
      && (forall j | k <= j < |w.slots| :: !r.world.slots[j].done)
      && (SaveTurn(job, w) == Turn(k, x, None) && CleanFrom(job, 0, 0) ==>
            r.err.None? && forall j | 0 <= j < k :: r.world.slots[j].done)
  {
    RunHasFacts(job, w, 0, 0, Own);
    TurnIsAtFirstStop(job, w.slots, 0, 0, Own);
    var t := SaveTurn(job, w);
    if t == Turn(k, x, None) && CleanFrom(job, 0, 0) {
      SuccessArrives(job, 0, 0, t);
      forall j | 0 <= j < k ensures Save(job, w).world.slots[j].done {
        SuccessArrives(job, j + 1, 0, t);
      }
    }
  }

  lemma {:induction false} SuccessArrives(job: Job, i: nat, h: nat, t: Turn)
    requires i <= |job.hooks| && (i < |job.hooks| ==> h <= |job.hooks[i]|)
    requires t.err.None? && CleanFrom(job, i, h)
    ensures Arrives(job, i, h, t).None?
    decreases |job.hooks| - i, if i < |job.hooks| then |job.hooks[i]| - h else 0
  {
    if i < |job.hooks| && !(i == t.builder && h == t.hook) {
      if h == |job.hooks[i]| {
        SuccessArrives(job, i + 1, 0, t);
      } else if job.hooks[i][h].Forward? {
        SuccessArrives(job, i, h + 1, t);
      }
    }
  }

  lemma {:induction false} ErrorArrives(job: Job, i: nat, h: nat, t: Turn)
    requires i <= |job.hooks| && (i < |job.hooks| ==> h <= |job.hooks[i]|)
    requires t.err.Some? && KeepsErrors(job)
    ensures Arrives(job, i, h, t).Some?
    decreases |job.hooks| - i, if i < |job.hooks| then |job.hooks[i]| - h else 0
  {
    if i < |job.hooks| && !(i == t.builder && h == t.hook) {
      if h == |job.hooks[i]| {
        ErrorArrives(job, i + 1, 0, t);
      } else if job.hooks[i][h].Forward? {
        ErrorArrives(job, i, h + 1, t);
        var e := Arrives(job, i, h + 1, t).value;
        assert job.hooks[i][h].after(Some(e)).Some?;
      }
    }
  }

  // When no hook turns errors into success, a successful save inserted its rows exactly when no hook of any
  // builder answers by itself.
  lemma SuccessMeansRows(job: Job, w: World)
    requires Fits(job, w) && |job.hooks| > 0 && Fresh(w.slots, 0) && KeepsErrors(job)
    requires Save(job, w).err.None?
    ensures InsertedIds(job, w, Save(job, w).world).Some? <==> NoSkip(job)
  {
    var t := SaveTurn(job, w);
    RunHasFacts(job, w, 0, 0, Own);
    TurnIsAtFirstStop(job, w.slots, 0, 0, Own);
    if t.err.Some? { ErrorArrives(job, 0, 0, t); }
  }

  // The hooks turn error e of the database into success.
  ghost predicate Absorbs(job: Job, e: Error) {
    Arrives(job, 0, 0, Turn(|job.hooks|, 0, Some(e))).None?
  }

  // A batch that the database rejects with e succeeds, without rows, exactly when the hooks absorb e.
  lemma RejectionIsAbsorbed(job: Job, w: World, e: Error)
    requires Fits(job, w) && |job.hooks| > 0 && Fresh(w.slots, 0)
    requires SaveTurn(job, w) == Turn(|job.hooks|, 0, Some(e))
    ensures InsertedIds(job, w, Save(job, w).world).None?
    ensures Save(job, w).err.None? <==> Absorbs(job, e)
  {
    RunHasFacts(job, w, 0, 0, Own);
  }

  // A first hook of builder k that turns every error into success leaves builder k - 1 done, without a row,
  // whenever the run goes wrong behind it.
  lemma SwallowingHookMarksDone(job: Job, w: World, k: nat)
    requires Fits(job, w) && Fresh(w.slots, 0) && 0 < k < |job.hooks| && |job.hooks[k]| > 0
    requires job.hooks[k][0].Forward? && forall e :: job.hooks[k][0].after(e).None?
    requires var t := SaveTurn(job, w); t.err.Some? && Precedes((k, 0), (t.builder, t.hook))
    ensures var r := Save(job, w);
      r.world.slots[k - 1].done && InsertedIds(job, w, r.world).None?
  {
    RunHasFacts(job, w, 0, 0, Own);
  }

  lemma CleanFromStep(job: Job, i: nat, h: nat)
    requires i < |job.hooks| && h <= |job.hooks[i]|
    ensures CleanFrom(job, i, h) <==>
      if h == |job.hooks[i]| then CleanFrom(job, i + 1, 0) else Clean(job.hooks[i][h]) && CleanFrom(job, i, h + 1)
  {
    if h == |job.hooks[i]| {
      assert forall k, x | 0 <= k < |job.hooks| && 0 <= x < |job.hooks[k]| ::
        Precedes((k, x), (i, h)) <==> Precedes((k, x), (i + 1, 0));
    } else {
      assert forall k: nat, x: nat :: Precedes((k, x), (i, h + 1)) <==> Precedes((k, x), (i, h)) || (k, x) == (i, h);
    }
  }

  lemma {:induction false} CleanIsNeeded(job: Job, i: nat, h: nat)
    requires i <= |job.hooks| && (i < |job.hooks| ==> h <= |job.hooks[i]|) && KeepsErrors(job)
    requires forall k, x | 0 <= k < |job.hooks| && 0 <= x < |job.hooks[k]| :: job.hooks[k][x].Forward?
    ensures Arrives(job, i, h, Turn(|job.hooks|, 0, None)).None? <==> CleanFrom(job, i, h)
    decreases |job.hooks| - i, if i < |job.hooks| then |job.hooks[i]| - h else 0
  {
    if i < |job.hooks| {
      CleanFromStep(job, i, h);
      if h == |job.hooks[i]| {
        CleanIsNeeded(job, i + 1, 0);
      } else {
        CleanIsNeeded(job, i, h + 1);
        var rest := Arrives(job, i, h + 1, Turn(|job.hooks|, 0, None));
        assert rest.Some? ==> job.hooks[i][h].after(Some(rest.value)).Some?;
      }
    }
  }

  // With hooks that neither answer by themselves nor turn errors into success: success exactly when the rows
  // were inserted and every hook lets success through; the done builders are those behind which every hook
  // does; and an error leaves nothing marked done exactly when nothing was inserted or every hook is clean.
  lemma HonestSaveIsAllOrNothing(job: Job, w: World)
    requires Fits(job, w) && |job.hooks| > 0 && Fresh(w.slots, 0) && NoSkip(job) && KeepsErrors(job)
    ensures var r := Save(job, w);
      var ids := InsertedIds(job, w, r.world);
      && (r.err.None? <==> ids.Some? && CleanFrom(job, 0, 0))
      && (forall j | 0 <= j < |w.slots| :: r.world.slots[j].done <==> ids.Some? && CleanFrom(job, j + 1, 0))
      && ((r.err.Some? ==> Fresh(r.world.slots, 0)) <==> (ids.None? || CleanFrom(job, 0, 0)))
  {
    var t := SaveTurn(job, w);
    SaveIsAllOrNothing(job, w);
    HonestTurn(job, w);
    HonestArrives(job, t, 0, 0);
    forall j: nat | j < |w.slots|
      ensures Save(job, w).world.slots[j].done <==> t.err.None? && CleanFrom(job, j + 1, 0)
    {
      HonestArrives(job, t, j + 1, 0);
    }
    var last := |job.hooks| - 1;
    assert Save(job, w).world.slots[last].done <==> t.err.None? by { assert CleanFrom(job, last + 1, 0); }
  }

  lemma HonestTurn(job: Job, w: World)
    requires Fits(job, w) && |job.hooks| > 0 && NoSkip(job)
    ensures var t := SaveTurn(job, w);
      t.err.None? ==>
        && t == Turn(|job.hooks|, 0, None)
        && forall k, x | 0 <= k < |job.hooks| && 0 <= x < |job.hooks[k]| :: job.hooks[k][x].Forward?
  {
    TurnIsAtFirstStop(job, w.slots, 0, 0, Own);
  }

  lemma HonestArrives(job: Job, t: Turn, i: nat, h: nat)
    requires i <= |job.hooks| && (i < |job.hooks| ==> h <= |job.hooks[i]|) && KeepsErrors(job)
    requires t.err.None? ==>
      t == Turn(|job.hooks|, 0, None)
      && forall k, x | 0 <= k < |job.hooks| && 0 <= x < |job.hooks[k]| :: job.hooks[k][x].Forward?
    ensures Arrives(job, i, h, t).None? <==> t.err.None? && CleanFrom(job, i, h)
  {
    if t.err.Some? { ErrorArrives(job, i, h, t); } else { CleanIsNeeded(job, i, h); }
  }

  predicate Precedes(a: (nat, nat), b: (nat, nat)) {
    a.0 < b.0 || (a.0 == b.0 && a.1 < b.1)
  }

  // The hooks from hook h of builder i on.
  ghost predicate IsRemaining(job: Job, i: nat, h: nat, p: (nat, nat)) {
    p.0 < |job.hooks| && p.1 < |job.hooks[p.0]| && !Precedes(p, (i, h))
  }

  ghost predicate InOrder(rest: seq<(nat, nat)>) {
    forall a, b | 0 <= a < b < |rest| :: Precedes(rest[a], rest[b])
  }

  lemma OrderCons(p: (nat, nat), tail: seq<(nat, nat)>)
    requires InOrder(tail) && forall q | q in tail :: Precedes(p, q)
    ensures InOrder([p] + tail)
  {
    forall a, b | 0 <= a < b < |[p] + tail| ensures Precedes(([p] + tail)[a], ([p] + tail)[b]) {
      assert ([p] + tail)[b] == tail[b - 1] && tail[b - 1] in tail;
    }
  }

  // The hooks come in (builder, hook) order, and none is missing.
  lemma {:induction false} RemainingIsInOrder(job: Job, i: nat, h: nat)
    requires i <= |job.hooks| && (i < |job.hooks| ==> h <= |job.hooks[i]|)
    ensures InOrder(Remaining(job, i, h))
    ensures forall p :: p in Remaining(job, i, h) <==> IsRemaining(job, i, h, p)
    decreases |job.hooks| - i, if i < |job.hooks| then |job.hooks[i]| - h else 0
  {
    if i < |job.hooks| {
      if h == |job.hooks[i]| {
        RemainingIsInOrder(job, i + 1, 0);
        assert forall p :: IsRemaining(job, i + 1, 0, p) <==> IsRemaining(job, i, h, p);
      } else {
        RemainingIsInOrder(job, i, h + 1);
        OrderCons((i, h), Remaining(job, i, h + 1));
        assert forall p :: IsRemaining(job, i, h, p) <==> p == (i, h) || IsRemaining(job, i, h + 1, p);
      }
    }
  }

  // A save that called the database entered every hook, in order, and left every hook, in reverse, around it.
  lemma DatabaseIsAtCentre(job: Job, w: World)
    requires Fits(job, w) && |job.hooks| > 0 && |w.batches| < |Save(job, w).world.batches|
    ensures Save(job, w).world.trace == w.trace + Nest(Remaining(job, 0, 0), [Batch])
  {
    var _ := TraceIsBalanced(job, w, 0, 0, Own);
  }

  // ---------- What reaches the database ----------

  // The mutation that arrives in closure i when hook h receives arg, read off the hooks.
  ghost function Handed(job: Job, i: nat, h: nat, arg: Arg): Arg
    requires i < |job.hooks| && h <= |job.hooks[i]|
    decreases |job.hooks[i]| - h
  {
    if h == |job.hooks[i]| then arg
    else
      match job.hooks[i][h]
      case Forward(edit, Same, _) => Handed(job, i, h + 1, if arg.Swapped? then Swapped(edit(arg.fields)) else arg)
      case Forward(_, Other(f), _) => Handed(job, i, h + 1, Swapped(f))
      case Forward(_, Foreign, _) => Handed(job, i, h + 1, Alien)
      case _ => arg
  }

  // Builder j was built from its own mutation, checked, or from the one its hooks handed on, unchecked.
  ghost predicate BuiltFrom(arg: Arg, fields: Fields) {
    match arg
    case Own => Check(fields).None?
    case Swapped(f) => fields == f
    case Alien => false
  }

  // The same for a run that is at hook h of builder i with arg.
  ghost function Arriving(job: Job, i: nat, h: nat, arg: Arg, j: nat): Arg
    requires i <= j < |job.hooks| && h <= |job.hooks[i]|
  {
    if j == i then Handed(job, i, h, arg) else Handed(job, j, 0, Own)
  }

  ghost predicate BatchFacts(job: Job, i: nat, h: nat, arg: Arg, w: World, w': World)
    requires Fits(job, w) && Fits(job, w') && i < |job.hooks| && h <= |job.hooks[i]|
  {
    && (forall j | 0 <= j < i :: w'.slots[j].fields == w.slots[j].fields)
    && (|w.batches| < |w'.batches| ==>
          var batch := w'.batches[|w.batches|];
          && |batch| == |w.slots|
          && (forall j | 0 <= j < i :: batch[j] == w.slots[j].spec)
          && (forall j | i <= j < |w.slots| ::
                && batch[j] == Some(Spec(w'.slots[j].fields, job.conflicts[j], None))
                && BuiltFrom(Arriving(job, i, h, arg, j), w'.slots[j].fields)))
  }

  lemma {:induction false} RunHasBatchFacts(job: Job, w: World, i: nat, h: nat, arg: Arg)
    requires Fits(job, w) && i < |job.hooks| && h <= |job.hooks[i]|
    ensures BatchFacts(job, i, h, arg, w, Invoke(job, w, i, h, arg).world)
    decreases |job.hooks| - i, |job.hooks[i]| - h, 1
  {
    if h == |job.hooks[i]| {
      InnermostHasBatchFacts(job, w, i, arg);
    } else if job.hooks[i][h].Forward? {
      var w1 := w.(trace := w.trace + [Enter(i, h)]);
      var Forward(edit, pass, after) := job.hooks[i][h];
      RunHasBatchFacts(job, Edited(w1, i, arg, edit), i, h + 1, Passed(arg, edit, pass));
    }
  }

  lemma {:induction false} InnermostHasBatchFacts(job: Job, w: World, i: nat, arg: Arg)
    requires Fits(job, w) && i < |job.hooks|
    ensures BatchFacts(job, i, |job.hooks[i]|, arg, w, Innermost(job, w, i, arg).world)
    decreases |job.hooks| - i, 0, 0
  {
    if !arg.Alien? && Check(w.slots[i].fields).None? {
      var w1 := w.(slots := w.slots[i := Built(w.slots[i], arg, job.conflicts[i])]);
      if i + 1 < |job.hooks| {
        RunHasBatchFacts(job, w1, i + 1, 0, Own);
        BehindHasBatchFacts(job, w, i, arg, Invoke(job, w1, i + 1, 0, Own).world);
        FinishKeepsBatchFacts(job, i, |job.hooks[i]|, arg, w, Invoke(job, w1, i + 1, 0, Own).world);
      } else {
        CallHasBatchFacts(job, w, i, arg);
        FinishKeepsBatchFacts(job, i, |job.hooks[i]|, arg, w, RunBatch(job, w1).world);
      }
    }
  }

  // What is behind closure i is seen from it with its own builder in front.
  lemma BehindHasBatchFacts(job: Job, w: World, i: nat, arg: Arg, w2: World)
    requires Fits(job, w) && Fits(job, w2) && i + 1 < |job.hooks| && !arg.Alien? && Check(w.slots[i].fields).None?
    requires BatchFacts(job, i + 1, 0, Own, w.(slots := w.slots[i := Built(w.slots[i], arg, job.conflicts[i])]), w2)
    ensures BatchFacts(job, i, |job.hooks[i]|, arg, w, w2)
  {
  }

  lemma CallHasBatchFacts(job: Job, w: World, i: nat, arg: Arg)
    requires Fits(job, w) && i + 1 == |job.hooks| && !arg.Alien? && Check(w.slots[i].fields).None?
    ensures BatchFacts(job, i, |job.hooks[i]|, arg, w,
      RunBatch(job, w.(slots := w.slots[i := Built(w.slots[i], arg, job.conflicts[i])])).world)
  {
  }

  lemma FinishKeepsBatchFacts(job: Job, i: nat, h: nat, arg: Arg, w: World, w2: World)
    requires Fits(job, w) && Fits(job, w2) && i < |job.hooks| && h <= |job.hooks[i]|
    requires BatchFacts(job, i, h, arg, w, w2)
    ensures BatchFacts(job, i, h, arg, w, w2.(slots := w2.slots[i := Finished(w2.slots[i])]))
  {
    assert forall j | 0 <= j < |w2.slots| :: w2.slots[i := Finished(w2.slots[i])][j].fields == w2.slots[j].fields;
  }

  // Every mutation that the hooks swap in satisfies the check.
  ghost predicate SwapsPass(job: Job) {
    forall j | 0 <= j < |job.hooks| && Handed(job, j, 0, Own).Swapped? :: Check(Handed(job, j, 0, Own).fields).None?
  }

  // The batch, whenever the database is called, holds at every position the spec of that builder's columns as
  // they end up; and all of them satisfy the check exactly when every mutation that the hooks swap in does.
  lemma BatchHoldsEverySpec(job: Job, w: World)
    requires Fits(job, w) && |job.hooks| > 0 && |w.batches| < |Save(job, w).world.batches|
    ensures var w' := Save(job, w).world;
      var batch := w'.batches[|w.batches|];
      && |batch| == |w.slots|
      && (forall j | 0 <= j < |w.slots| :: batch[j] == Some(Spec(w'.slots[j].fields, job.conflicts[j], None)))
      && ((forall j | 0 <= j < |w.slots| :: Check(w'.slots[j].fields).None?) <==> SwapsPass(job))
  {
    RunHasBatchFacts(job, w, 0, 0, Own);
    var w' := Save(job, w).world;
    forall j | 0 <= j < |w.slots|
      ensures Check(w'.slots[j].fields).None? <==>
        (Handed(job, j, 0, Own).Swapped? ==> Check(Handed(job, j, 0, Own).fields).None?)
    {
      assert BuiltFrom(Arriving(job, 0, 0, Own, j), w'.slots[j].fields);
    }
  }

  // A mutation that builder j's hooks swap in reaches the database as it is, checked or not.
  lemma SwappedMutationReachesDatabase(job: Job, w: World, j: nat)
    requires Fits(job, w) && j < |job.hooks| && |w.batches| < |Save(job, w).world.batches|
    requires Handed(job, j, 0, Own).Swapped?
    ensures var batch := Save(job, w).world.batches[|w.batches|];
      j < |batch| && batch[j] == Some(Spec(Handed(job, j, 0, Own).fields, job.conflicts[j], None))
  {
    RunHasBatchFacts(job, w, 0, 0, Own);
    assert Arriving(job, 0, 0, Own, j) == Handed(job, j, 0, Own);
  }

  // One such save: the check reads the builder's own mutation, and an empty one is inserted.
  lemma SwappedMutationIsUnchecked(edit: Fields -> Fields, after: Option<Error> -> Option<Error>,
                                   reply: (seq<Option<Spec>>, seq<nat>) -> Reply)
    requires forall f :: edit(f) == f
    ensures var good := Fields(Some(1), Some(1), Some(0), None, Some(0));
      var bad := Fields(None, None, None, None, None);
      var job := Job([[Forward(edit, Other(bad), after)]], [[]], [], reply);
      var r := Save(job, World([Slot(good, false, false, None, None)], [], []));
      r.world.batches == [[Some(Spec(bad, [], None))]] && Check(bad).Some?
  {
    var good := Fields(Some(1), Some(1), Some(0), None, Some(0));
    var bad := Fields(None, None, None, None, None);
    var job := Job([[Forward(edit, Other(bad), after)]], [[]], [], reply);
    var slot := Slot(good, false, false, None, None);
    var w1 := World([slot], [], [] + [Enter(0, 0)]);
    assert job.hooks[0][0] == Forward(edit, Other(bad), after);
    assert Edited(w1, 0, Own, edit) == w1;
    var r1 := Invoke(job, w1, 0, 1, Swapped(bad));
    assert r1 == Innermost(job, w1, 0, Swapped(bad));
    assert w1.slots[0 := Built(slot, Swapped(bad), [])] == [Built(slot, Swapped(bad), [])];
    assert Specs([Built(slot, Swapped(bad), [])]) == [Some(Spec(bad, [], None))];
    assert r1.world.batches == [[Some(Spec(bad, [], None))]];
    assert RunHook(job, w1, 0, 0, Own).world.batches == r1.world.batches;
  }

  // ---------- The batch program ----------

  function EditAll(hooks: seq<Hook>, f: Fields): Fields {
    if hooks == [] then f
    else EditAll(hooks[1..], if hooks[0].Forward? then hooks[0].edit(f) else f)
  }

  // From hook h of builder i on: run the edits, check, build node and spec; stop at the first failing check.
  function BuildAll(job: Job, slots: seq<Slot>, i: nat, h: nat): (r: (seq<Slot>, Option<Error>))
    requires i <= |job.hooks| == |job.conflicts| == |slots|
    requires i < |slots| ==> h <= |job.hooks[i]|
    ensures |r.0| == |slots|
    decreases |slots| - i
  {
    if i == |slots| then (slots, None)
    else
      var slot := slots[i].(fields := EditAll(job.hooks[i][h..], slots[i].fields));
      if Check(slot.fields).Some? then (slots[i := slot], Check(slot.fields))
      else BuildAll(job, slots[i := Built(slot, Own, job.conflicts[i])], i + 1, 0)
  }

  function FinishFrom(slots: seq<Slot>, i: nat): (ss: seq<Slot>)
    ensures |ss| == |slots|
  {
    seq(|slots|, j requires 0 <= j < |slots| => if j < i then slots[j] else Finished(slots[j]))
  }

  datatype Program = Program(slots: seq<Slot>, batches: seq<seq<Option<Spec>>>, err: Option<Error>)

  // Build everything, run one batch, mark everything.
  function BatchProgram(job: Job, slots: seq<Slot>, batches: seq<seq<Option<Spec>>>, i: nat, h: nat): (p: Program)
    requires i <= |job.hooks| == |job.conflicts| == |slots|
    requires i < |slots| ==> h <= |job.hooks[i]|
    ensures |p.slots| == |slots|
  {
    var (built, err) := BuildAll(job, slots, i, h);
    if err.Some? then Program(built, batches, err)
    else
      var batches' := batches + [Specs(built)];
      match job.reply(Specs(built), job.conflict)
      case Rejected(code, constraint) =>
        Program(built, batches', Some(if constraint then ConstraintError(code) else DriverError(code)))
      case Inserted(ids) =>
        Program(FinishFrom(StoreIds(built, ids), i), batches', None)
  }

  // Hooks that call their successor exactly once on the same mutation and pass on its result.
  ghost predicate WellBehaved(job: Job) {
    forall i, h | 0 <= i < |job.hooks| && 0 <= h < |job.hooks[i]| ::
      job.hooks[i][h].Forward? && job.hooks[i][h].pass.Same? && forall e :: job.hooks[i][h].after(e) == e
  }

  lemma {:induction false} EditFirst(job: Job, slots: seq<Slot>, i: nat, h: nat)
    requires i < |job.hooks| == |job.conflicts| == |slots| && h < |job.hooks[i]| && job.hooks[i][h].Forward?
    ensures var edited := slots[i := slots[i].(fields := job.hooks[i][h].edit(slots[i].fields))];
      BuildAll(job, edited, i, h + 1) == BuildAll(job, slots, i, h)
  {
    var edited := slots[i := slots[i].(fields := job.hooks[i][h].edit(slots[i].fields))];
    assert job.hooks[i][h..][1..] == job.hooks[i][h + 1..];
    var slot := slots[i].(fields := EditAll(job.hooks[i][h..], slots[i].fields));
    assert edited[i := slot] == slots[i := slot];
    assert edited[i := Built(slot, Own, job.conflicts[i])] == slots[i := Built(slot, Own, job.conflicts[i])];
  }

  // The recursive chain of hooked mutators computes the batch program: same slots, same calls of the
  // database, same error.
  lemma {:induction false} ChainIsBatchProgram(job: Job, w: World, i: nat, h: nat)
    requires Fits(job, w) && i < |job.hooks| && h <= |job.hooks[i]| && WellBehaved(job)
    ensures var r := Invoke(job, w, i, h, Own);
      BatchProgram(job, w.slots, w.batches, i, h) == Program(r.world.slots, r.world.batches, r.err)
    decreases |job.hooks| - i, |job.hooks[i]| - h
  {
    if h < |job.hooks[i]| {
      var w1 := w.(trace := w.trace + [Enter(i, h)]);
      var edit := job.hooks[i][h].edit;
      ChainIsBatchProgram(job, Edited(w1, i, Own, edit), i, h + 1);
      EditFirst(job, w.slots, i, h);
    } else {
      assert w.slots[i := w.slots[i]] == w.slots;
      if Check(w.slots[i].fields).None? {
        var w1 := w.(slots := w.slots[i := Built(w.slots[i], Own, job.conflicts[i])]);
        var (built, err) := BuildAll(job, w1.slots, i + 1, 0);
        if i + 1 < |job.hooks| {
          ChainIsBatchProgram(job, w1, i + 1, 0);
        }
        if err.None? && job.reply(Specs(built), job.conflict).Inserted? {
          var stored := StoreIds(built, job.reply(Specs(built), job.conflict).ids);
          assert FinishFrom(stored, i) == FinishFrom(stored, i + 1)[i := Finished(stored[i])];
        }
      }
    }
  }

  lemma SaveIsBatchProgram(job: Job, w: World)
    requires Fits(job, w) && |job.hooks| > 0 && WellBehaved(job)
    ensures var r := Save(job, w);
      BatchProgram(job, w.slots, w.batches, 0, 0) == Program(r.world.slots, r.world.batches, r.err)
  {
    ChainIsBatchProgram(job, w, 0, 0);
  }
}
