/** The reconciliation both import blocks run once their transform has
    produced the drafts: look the drafts up in storage, classify them
    against what is stored, collect the parent edges to create and to
    remove, strip the transient data, and apply the result in a fixed
    order. The two blocks differ only in the entity kind, the comparers and
    the transform, so the shared part is stated once here, over any kind. */
module Reconcile {
  import opened Wrappers
  import opened Host
  import opened Associations
  import opened Entities
  import opened BulkCommands
  import Linq

  /** How the reconciliation reaches into one kind of entity. */
  datatype Kind<!T> = Kind(
    id: T -> string,                                   // CommerceEntity.Id
    wrap: T -> Entity,
    transient: T -> Option<TransientData>,             // the transient import policy, if attached
    setTransient: (T, Option<TransientData>) -> T)     // attaching or removing it

  /** Attaching a policy, or removing it, is what `transient` then reports. */
  ghost predicate Lawful<T(!new)>(k: Kind<T>) {
    forall x, t :: k.transient(k.setTransient(x, t)) == t
  }

  /** The host commands a run calls whose code is not part of this model. */
  datatype Collaborators<!T> = Collaborators(
    find: string -> Option<T>,                         // IFindEntityPipeline
    copyInto: (seq<T>, T) -> T,                        // CopyImportTo…Command, as it updates one changed item
    relationshipType: RelationshipType,                // GetRelationshipTypeCommand
    report: Effect -> seq<string>)                     // what the host writes to the message buffer

  /** `GetPolicy<Transient…DataPolicy>()`: the attached policy, or a new empty one. */
  function Policy<T>(k: Kind<T>, x: T): TransientData {
    k.transient(x).GetOr(EmptyTransient)
  }

  /** `GetPolicy` attaches the policy it creates: after the call the entity holds one. */
  function Touched<T>(k: Kind<T>, x: T): T {
    k.setTransient(x, Some(Policy(k, x)))
  }

  /** One iteration of `RemoveTransientData`: the policy is removed when present. */
  function Stripped<T>(k: Kind<T>, x: T): T {
    if k.transient(x).Some? then k.setTransient(x, None) else x
  }

  function TouchFn<T>(k: Kind<T>): T -> T {
    (x: T) => Touched(k, x)
  }

  function StripFn<T>(k: Kind<T>): T -> T {
    (x: T) => Stripped(k, x)
  }

  function ToCreateOf<T>(k: Kind<T>): T -> seq<ParentEdge> {
    (x: T) => Policy(k, x).toCreate
  }

  function ToRemoveOf<T>(k: Kind<T>): T -> seq<ParentEdge> {
    (x: T) => Policy(k, x).toRemove
  }

  function CopyFn<T>(c: Collaborators<T>, imports: seq<T>): T -> T {
    (x: T) => c.copyInto(imports, x)
  }

  // ---------------------------------------------------------------------
  // Classification and edge collection

  /** What a run decides before it writes anything. */
  datatype Plan<T> = Plan(
    newItems: seq<T>,              // drafts with no stored counterpart by identity
    changedItems: seq<T>,          // stored entities no draft equals by content
    updated: seq<T>,               // the changed entities once the drafts are copied into them
    toCreate: seq<ParentEdge>,
    toRemove: seq<ParentEdge>,
    toPersist: seq<T>)

  function Classify<T>(k: Kind<T>, c: Collaborators<T>, imports: seq<T>, existing: seq<T>,
                       byId: Linq.Comparer<T>, byData: Linq.Comparer<T>): Plan<T>
  {
    var newItems := Linq.Except(imports, existing, byId);
    var changedItems := Linq.Except(existing, imports, byData);
    var updated := Linq.Select(changedItems, CopyFn(c, imports));
    var newAndChanged := newItems + updated;
    var toCreate := Linq.SelectMany(newAndChanged, ToCreateOf(k));
    var toRemove := Linq.SelectMany(newAndChanged, ToRemoveOf(k));
    var toPersist := Linq.Select(Linq.Select(newItems, TouchFn(k)), StripFn(k)) + Linq.Select(updated, TouchFn(k));
    Plan(newItems, changedItems, updated, toCreate, toRemove, toPersist)
  }

  /** The first exception hashing throws while `Except` fills and probes
      its set, or none. */
  function FirstFault<T>(xs: seq<T>, fault: T -> Option<ImportError>): Option<ImportError> {
    if |xs| == 0 then None
    else if fault(xs[0]).Some? then fault(xs[0])
    else FirstFault(xs[1..], fault)
  }

  /** The run goes on exactly when hashing throws on nothing, and it stops
      with an exception hashing throws on some element. */
  lemma {:induction false} FirstFaultFound<T>(xs: seq<T>, fault: T -> Option<ImportError>)
    ensures FirstFault(xs, fault).None? <==> forall i :: 0 <= i < |xs| ==> fault(xs[i]).None?
    ensures FirstFault(xs, fault).Some? ==> exists i :: 0 <= i < |xs| && fault(xs[i]) == FirstFault(xs, fault)
  {
    if |xs| > 0 && fault(xs[0]).None? {
      FirstFaultFound(xs[1..], fault);
      assert forall i :: 0 < i < |xs| ==> xs[i] == xs[1..][i - 1];
      if FirstFault(xs, fault).Some? {
        var i :| 0 <= i < |xs[1..]| && fault(xs[1..][i]) == FirstFault(xs, fault);
        assert fault(xs[i + 1]) == FirstFault(xs, fault);
      }
    }
  }

  /** Persist, then create edges, then remove edges. */
  function ApplyEffects<T>(k: Kind<T>, c: Collaborators<T>, plan: Plan<T>): seq<Effect> {
    PersistEffects(Linq.Select(plan.toPersist, k.wrap))
      + [AssociateAll(plan.toCreate)]
      + DisassociateEffects(plan.toRemove, c.relationshipType)
  }

  /** The stored counterparts the lookups return. */
  function Existing<T>(k: Kind<T>, c: Collaborators<T>, imports: seq<T>): seq<T> {
    Found(imports, k.id, c.find)
  }

  /** The exception a run stops with after its lookups, if any: the content
      comparer hashes every draft and then every stored entity. */
  function RunFault<T>(k: Kind<T>, c: Collaborators<T>, imports: seq<T>, fault: T -> Option<ImportError>): Option<ImportError> {
    FirstFault(imports + Existing(k, c, imports), fault)
  }

  /** Every call a run makes, from the lookups on. */
  function RunEffects<T>(k: Kind<T>, c: Collaborators<T>, imports: seq<T>,
                         byId: Linq.Comparer<T>, byData: Linq.Comparer<T>, fault: T -> Option<ImportError>): seq<Effect>
  {
    LookupEffects(imports, k.id)
      + if RunFault(k, c, imports, fault).Some? then []
        else ApplyEffects(k, c, Classify(k, c, imports, Existing(k, c, imports), byId, byData))
  }

  // ---------------------------------------------------------------------
  // The imperative steps

  method RemoveTransientData<T(!new)>(k: Kind<T>, importItems: seq<T>) returns (r: seq<T>)
    ensures r == Linq.Select(importItems, StripFn(k))
    ensures forall i :: 0 <= i < |importItems| && k.transient(importItems[i]).None? ==> r[i] == importItems[i]
    ensures Lawful(k) ==> forall i :: 0 <= i < |r| ==> k.transient(r[i]).None?
  {
    r := [];
    for i := 0 to |importItems|
      invariant r == Linq.Select(importItems[..i], StripFn(k))
    {
      var item := importItems[i];
      if k.transient(item).Some? {
        item := k.setTransient(item, None);
      }
      Linq.SelectSnoc(importItems[..i], importItems[i], StripFn(k));
      assert importItems[..i + 1] == importItems[..i] + [importItems[i]];
      r := r + [item];
    }
    assert importItems[..|importItems|] == importItems;
  }

  /** Replaying two runs of effects one after the other. */
  lemma {:induction false} ReplayAppend(m0: seq<string>, a: seq<Effect>, b: seq<Effect>, report: Effect -> seq<string>)
    ensures Replay(m0, a + b, report) == Replay(Replay(m0, a, report), b, report)
  {
    if |b| == 0 {
      assert a + b == a;
    } else {
      var init := b[..|b| - 1];
      assert (a + b)[..|a + b| - 1] == a + init;
      ReplayAppend(m0, a, init, report);
    }
  }

  /** The part of `Run` after the transform, up to the `catch`: returns the
      exception that ends it early, if any. */
  /** Classification, edge collection and stripping: the pure steps of
      `Run` between the lookups and the writes. The drafts `RemoveTransientData`
      strips are observed afterwards only through the new items, which are
      the same objects; it is applied to those. */
  method Decide<T(!new)>(k: Kind<T>, c: Collaborators<T>, importItems: seq<T>, existingItems: seq<T>,
                         byId: Linq.Comparer<T>, byData: Linq.Comparer<T>)
    returns (plan: Plan<T>)
    ensures plan == Classify(k, c, importItems, existingItems, byId, byData)
  {
    var newItems := Linq.Except(importItems, existingItems, byId);
    var changedItems := Linq.Except(existingItems, importItems, byData);
    var updated := Linq.Select(changedItems, CopyFn(c, importItems));
    var newAndChanged := newItems + updated;
    var toCreate := Linq.SelectMany(newAndChanged, ToCreateOf(k));
    var toRemove := Linq.SelectMany(newAndChanged, ToRemoveOf(k));
    var touched := Linq.Select(newItems, TouchFn(k));
    var strippedNew := RemoveTransientData(k, touched);
    plan := Plan(newItems, changedItems, updated, toCreate, toRemove, strippedNew + Linq.Select(updated, TouchFn(k)));
  }

  /** The three writes, in order. */
  method Apply<T>(ctx: CommerceContext, k: Kind<T>, c: Collaborators<T>, plan: Plan<T>)
    modifies ctx
    ensures ctx.effects == old(ctx.effects) + ApplyEffects(k, c, plan)
    ensures ctx.messages == Replay(old(ctx.messages), ApplyEffects(k, c, plan), c.report)
    ensures ctx.log == old(ctx.log) && ctx.aborted == old(ctx.aborted)
  {
    var m0 := ctx.messages;
    var persisted := PersistEffects(Linq.Select(plan.toPersist, k.wrap));
    var associated := [AssociateAll(plan.toCreate)];
    var removed := DisassociateEffects(plan.toRemove, c.relationshipType);
    var _ := PersistEntityBulk(ctx, Linq.Select(plan.toPersist, k.wrap), c.report);
    ctx.Perform(AssociateAll(plan.toCreate), c.report);
    var _ := DisassociateToParentBulk(ctx, plan.toRemove, c.relationshipType, c.report);
    ReplayAppend(m0, persisted, associated, c.report);
    ReplayAppend(m0, persisted + associated, removed, c.report);
  }

  /** The part of `Run` after the transform, up to the `catch`: returns the
      exception that ends it early, if any. */
  method Reconcile<T(!new)>(ctx: CommerceContext, k: Kind<T>, c: Collaborators<T>, importItems: seq<T>,
                            byId: Linq.Comparer<T>, byData: Linq.Comparer<T>, fault: T -> Option<ImportError>)
    returns (err: Option<ImportError>)
    modifies ctx
    ensures err == RunFault(k, c, importItems, fault)
    ensures ctx.effects == old(ctx.effects) + RunEffects(k, c, importItems, byId, byData, fault)
    ensures ctx.messages == Replay(old(ctx.messages), RunEffects(k, c, importItems, byId, byData, fault), c.report)
    ensures ctx.log == old(ctx.log) && ctx.aborted == old(ctx.aborted)
  {
    ghost var lookups := LookupEffects(importItems, k.id);
    var existingItems := GetEntityBulk(ctx, importItems, k.id, c.find, c.report);
    assert existingItems == Existing(k, c, importItems);
    err := FirstFault(importItems + existingItems, fault);
    if err.None? {
      var plan := Decide(k, c, importItems, existingItems, byId, byData);
      assert RunEffects(k, c, importItems, byId, byData, fault) == lookups + ApplyEffects(k, c, plan);
      ApplyAfter(ctx, k, c, lookups, plan, old(ctx.effects), old(ctx.messages));
    } else {
      assert RunEffects(k, c, importItems, byId, byData, fault) == lookups + [] == lookups;
    }
  }

  /** The error message a block's `catch` adds, when there was an exception. */
  function ErrorTail(err: Option<ImportError>): seq<Effect> {
    if err.Some? then [AddMessage(Error)] else []
  }

  /** The calls a block makes from its second information message on: that
      message, the reconciliation, and the error message when an exception
      ends it. */
  function Reported<T>(k: Kind<T>, c: Collaborators<T>, imports: seq<T>,
                       byId: Linq.Comparer<T>, byData: Linq.Comparer<T>, fault: T -> Option<ImportError>): seq<Effect>
  {
    [AddMessage(Information)] + RunEffects(k, c, imports, byId, byData, fault) + ErrorTail(RunFault(k, c, imports, fault))
  }

  /** A block's `try` body from its second message on, with its `catch`:
      an exception the reconciliation raises is reported and aborts the
      pipeline. */
  method ReconcileReported<T(!new)>(ctx: CommerceContext, k: Kind<T>, c: Collaborators<T>, importItems: seq<T>,
                                    byId: Linq.Comparer<T>, byData: Linq.Comparer<T>, fault: T -> Option<ImportError>)
    modifies ctx
    ensures ctx.effects == old(ctx.effects) + Reported(k, c, importItems, byId, byData, fault)
    ensures ctx.messages == Replay(old(ctx.messages), Reported(k, c, importItems, byId, byData, fault), c.report)
    ensures ctx.log == old(ctx.log)
    ensures ctx.aborted == if RunFault(k, c, importItems, fault).Some? then RunFault(k, c, importItems, fault) else old(ctx.aborted)
  {
    ghost var m0, e0 := ctx.messages, ctx.effects;
    ctx.Perform(AddMessage(Information), c.report);
    var err := Reconcile(ctx, k, c, importItems, byId, byData, fault);
    ReportError(ctx, c.report, m0, e0, RunEffects(k, c, importItems, byId, byData, fault), err);
  }

  /** The `catch`: after an information message and the calls `run`, an
      exception adds the error message and aborts the pipeline. */
  method ReportError(ctx: CommerceContext, report: Effect -> seq<string>, ghost m0: seq<string>, ghost e0: seq<Effect>,
                     ghost run: seq<Effect>, err: Option<ImportError>)
    requires ctx.effects == (e0 + [AddMessage(Information)]) + run
    requires ctx.messages == Replay(Replay(m0, [AddMessage(Information)], report), run, report)
    modifies ctx
    ensures ctx.effects == e0 + ([AddMessage(Information)] + run + ErrorTail(err))
    ensures ctx.messages == Replay(m0, [AddMessage(Information)] + run + ErrorTail(err), report)
    ensures ctx.log == old(ctx.log)
    ensures ctx.aborted == if err.Some? then err else old(ctx.aborted)
  {
    ghost var done := [AddMessage(Information)] + run;
    ReplayAppend(m0, [AddMessage(Information)], run, report);
    if err.Some? {
      ReplaySnoc(m0, done, [AddMessage(Error)], report);
      ctx.Perform(AddMessage(Error), report);
      ctx.aborted := err;
    } else {
      assert done + [] == done;
    }
  }

  /** What a block's run leaves behind: the warnings logged, the calls
      made, and the exception it aborted with, if any. */
  datatype Outcome = Outcome(warnings: seq<Warning>, effects: seq<Effect>, error: Option<ImportError>)

  /** A block's run once its transform has produced `transformed`: the
      first information message came before the transform; an exception
      from the transform is reported at once, otherwise the warnings are
      logged and the reconciliation runs. */
  function BlockOutcome<T>(k: Kind<T>, c: Collaborators<T>, transformed: Result<(seq<T>, seq<Warning>), ImportError>,
                           byId: Linq.Comparer<T>, byData: Linq.Comparer<T>, fault: T -> Option<ImportError>): Outcome
  {
    match transformed
    case Failure(e) => Outcome([], [AddMessage(Information), AddMessage(Error)], Some(e))
    case Success((items, warnings)) =>
      Outcome(warnings, [AddMessage(Information)] + Reported(k, c, items, byId, byData, fault), RunFault(k, c, items, fault))
  }

  /** A block's `try`/`catch` after its transform, given the context as
      the first information message left it. */
  method AfterTransform<T(!new)>(ctx: CommerceContext, k: Kind<T>, c: Collaborators<T>,
                                 transformed: Result<(seq<T>, seq<Warning>), ImportError>,
                                 byId: Linq.Comparer<T>, byData: Linq.Comparer<T>, fault: T -> Option<ImportError>,
                                 ghost m0: seq<string>, ghost e0: seq<Effect>, ghost l0: seq<Warning>, ghost a0: Option<ImportError>)
    requires ctx.effects == e0 + [AddMessage(Information)]
    requires ctx.messages == Replay(m0, [AddMessage(Information)], c.report)
    requires ctx.log == l0 && ctx.aborted == a0
    modifies ctx
    ensures var o := BlockOutcome(k, c, transformed, byId, byData, fault);
      && ctx.log == l0 + o.warnings
      && ctx.effects == e0 + o.effects
      && ctx.messages == Replay(m0, o.effects, c.report)
      && ctx.aborted == (if o.error.Some? then o.error else a0)
  {
    if transformed.Failure? {
      ReplaySnoc(m0, [AddMessage(Information)], [AddMessage(Error)], c.report);
      ctx.Perform(AddMessage(Error), c.report);
      ctx.aborted := Some(transformed.error);
      assert l0 + [] == l0;
      return;
    }
    var importItems := transformed.value.0;
    ctx.log := ctx.log + transformed.value.1;
    ghost var reported := Reported(k, c, importItems, byId, byData, fault);
    ghost var err := RunFault(k, c, importItems, fault);
    assert BlockOutcome(k, c, transformed, byId, byData, fault)
        == Outcome(transformed.value.1, [AddMessage(Information)] + reported, err);
    ReconcileReported(ctx, k, c, importItems, byId, byData, fault);
    Opened(ctx, c.report, m0, e0, reported);
  }

  /** The first information message, then the calls `more`. */
  lemma Opened(ctx: CommerceContext, report: Effect -> seq<string>, m0: seq<string>, e0: seq<Effect>, more: seq<Effect>)
    requires ctx.effects == (e0 + [AddMessage(Information)]) + more
    requires ctx.messages == Replay(Replay(m0, [AddMessage(Information)], report), more, report)
    ensures ctx.effects == e0 + ([AddMessage(Information)] + more)
    ensures ctx.messages == Replay(m0, [AddMessage(Information)] + more, report)
  {
    ReplayAppend(m0, [AddMessage(Information)], more, report);
  }

  /** The writes, after the calls `done` already made. */
  method ApplyAfter<T>(ctx: CommerceContext, k: Kind<T>, c: Collaborators<T>, ghost done: seq<Effect>, plan: Plan<T>,
                       ghost e0: seq<Effect>, ghost m0: seq<string>)
    requires ctx.effects == e0 + done && ctx.messages == Replay(m0, done, c.report)
    modifies ctx
    ensures ctx.effects == e0 + (done + ApplyEffects(k, c, plan))
    ensures ctx.messages == Replay(m0, done + ApplyEffects(k, c, plan), c.report)
    ensures ctx.log == old(ctx.log) && ctx.aborted == old(ctx.aborted)
  {
    ghost var applied := ApplyEffects(k, c, plan);
    Apply(ctx, k, c, plan);
    assert (e0 + done) + applied == e0 + (done + applied);
    ReplayAppend(m0, done, applied, c.report);
  }

  // ---------------------------------------------------------------------
  // What the classification means

  /** The drafts no two of which the identity comparer calls equal. */
  predicate Unrelated<T>(eq: (T, T) -> bool, xs: seq<T>) {
    forall i, j :: 0 <= i < j < |xs| ==> !eq(xs[i], xs[j])
  }

  /** New items: exactly the drafts no stored entity matches by identity. */
  lemma NewItemsAreUnmatched<T(!new)>(imports: seq<T>, existing: seq<T>, byId: Linq.Comparer<T>, x: T)
    requires Linq.ConsistentOn(byId, imports + existing) && Linq.Transitive(byId)
    requires Unrelated(byId.equals, imports)
    ensures x in Linq.Except(imports, existing, byId) <==>
            x in imports && forall s :: s in existing ==> !byId.equals(s, x)
  {
    Linq.ExceptIsSpec(imports, existing, byId);
    Linq.ExceptSpecDistinct(imports, existing, byId.equals, x);
  }

  /** Changed items: stored entities that no draft equals by content, each
      at most once; a stored entity some draft equals is never changed. */
  lemma ChangedItemsAreUnmatched<T(!new)>(existing: seq<T>, imports: seq<T>, byData: Linq.Comparer<T>, x: T)
    requires Linq.ConsistentOn(byData, existing + imports) && Linq.Transitive(byData)
    ensures x in Linq.Except(existing, imports, byData) ==>
              x in existing && forall d :: d in imports ==> !byData.equals(d, x)
    ensures (exists d :: d in imports && byData.equals(d, x)) ==> x !in Linq.Except(existing, imports, byData)
    ensures forall i, j :: 0 <= i < j < |Linq.Except(existing, imports, byData)| ==>
              !byData.equals(Linq.Except(existing, imports, byData)[i], Linq.Except(existing, imports, byData)[j])
  {
    Linq.ExceptIsSpec(existing, imports, byData);
    if x in Linq.Except(existing, imports, byData) {
      Linq.ExceptSpecKeptWitness(existing, imports, byData.equals, x);
    }
    if exists d :: d in imports && byData.equals(d, x) {
      var d :| d in imports && byData.equals(d, x);
      Linq.ExceptSpecDrops(existing, imports, byData.equals, x, d);
    }
    ExceptSpecUnrelated(existing, imports, byData.equals);
  }

  /** No two elements `ExceptSpec` keeps are equal: a later one equal to an
      earlier one fails `Kept`, which requires symmetry and transitivity. */
  lemma {:induction false} ExceptSpecUnrelated<T(!new)>(first: seq<T>, second: seq<T>, eq: (T, T) -> bool)
    requires forall a, b, d :: eq(a, b) && eq(b, d) ==> eq(a, d)
    ensures Unrelated(eq, Linq.ExceptSpec(first, second, eq))
  {
    if |first| > 0 {
      var init := first[..|first| - 1];
      var last := first[|first| - 1];
      ExceptSpecUnrelated(init, second, eq);
      var prev := Linq.ExceptSpec(init, second, eq);
      if Linq.Kept(eq, first, second, |first| - 1) {
        var r := prev + [last];
        forall i | 0 <= i < |prev|
          ensures !eq(r[i], last)
        {
          Linq.ExceptSpecKeptWitness(init, second, eq, prev[i]);
          var j :| 0 <= j < |init| && init[j] == prev[i] && Linq.Kept(eq, init, second, j);
          assert first[j] == prev[i];
        }
      }
    }
  }

  /** A run over drafts the store already holds unchanged does nothing:
      when every draft has a stored counterpart by identity and every stored
      entity a draft equal to it by content, nothing is new, nothing is
      changed, and there is nothing to persist, link or unlink. */
  lemma InSyncNothingToDo<T(!new)>(k: Kind<T>, c: Collaborators<T>, imports: seq<T>, existing: seq<T>,
                                      byId: Linq.Comparer<T>, byData: Linq.Comparer<T>)
    requires Linq.ConsistentOn(byId, imports + existing) && Linq.Transitive(byId)
    requires Linq.ConsistentOn(byData, existing + imports) && Linq.Transitive(byData)
    requires forall j :: 0 <= j < |imports| ==> Linq.Matched(existing, byId.equals, imports[j])
    requires forall j :: 0 <= j < |existing| ==> Linq.Matched(imports, byData.equals, existing[j])
    ensures var plan := Classify(k, c, imports, existing, byId, byData);
      plan.newItems == [] && plan.changedItems == [] && plan.toPersist == []
      && plan.toCreate == [] && plan.toRemove == []
  {
    Linq.ExceptIsSpec(imports, existing, byId);
    Linq.ExceptIsSpec(existing, imports, byData);
    Linq.ExceptSpecEmptyWhenCovered(imports, existing, byId.equals);
    Linq.ExceptSpecEmptyWhenCovered(existing, imports, byData.equals);
    var plan := Classify(k, c, imports, existing, byId, byData);
    assert plan.newItems + plan.updated == [];
  }

  /** Rerunning an import the store already holds does nothing, for any
      pair of reflexive comparers, whether or not their hashes keep the
      contract: when the lookups return the drafts themselves, nothing is
      new, nothing is changed, and there is nothing to persist, link or
      unlink. */
  lemma RerunNothingToDo<T(!new)>(k: Kind<T>, c: Collaborators<T>, imports: seq<T>,
                                  byId: Linq.Comparer<T>, byData: Linq.Comparer<T>)
    requires forall x :: byId.equals(x, x)
    requires forall x :: byData.equals(x, x)
    ensures var plan := Classify(k, c, imports, imports, byId, byData);
      plan.newItems == [] && plan.changedItems == [] && plan.toPersist == []
      && plan.toCreate == [] && plan.toRemove == []
  {
    Linq.ExceptSelfEmpty(imports, byId);
    Linq.ExceptSelfEmpty(imports, byData);
    var plan := Classify(k, c, imports, imports, byId, byData);
    assert plan.newItems + plan.updated == [];
  }

  /** The edges to create are those listed by the new items, then those
      listed by the changed ones; an edge is to be created exactly when one
      of them lists it. Likewise for the edges to remove. */
  lemma EdgesCollected<T>(k: Kind<T>, c: Collaborators<T>, imports: seq<T>, existing: seq<T>,
                          byId: Linq.Comparer<T>, byData: Linq.Comparer<T>, e: ParentEdge)
    ensures var plan := Classify(k, c, imports, existing, byId, byData);
      && plan.toCreate == Linq.SelectMany(plan.newItems, ToCreateOf(k)) + Linq.SelectMany(plan.updated, ToCreateOf(k))
      && plan.toRemove == Linq.SelectMany(plan.newItems, ToRemoveOf(k)) + Linq.SelectMany(plan.updated, ToRemoveOf(k))
      && (e in plan.toCreate <==> exists x :: x in plan.newItems + plan.updated && e in Policy(k, x).toCreate)
      && (e in plan.toRemove <==> exists x :: x in plan.newItems + plan.updated && e in Policy(k, x).toRemove)
  {
    var plan := Classify(k, c, imports, existing, byId, byData);
    var both := plan.newItems + plan.updated;
    Linq.SelectManyAppend(plan.newItems, plan.updated, ToCreateOf(k));
    Linq.SelectManyAppend(plan.newItems, plan.updated, ToRemoveOf(k));
    Linq.SelectManyMembers(both, ToCreateOf(k), e);
    Linq.SelectManyMembers(both, ToRemoveOf(k), e);
    if exists x :: x in both && e in Policy(k, x).toCreate {
      var x :| x in both && e in Policy(k, x).toCreate;
      var i :| 0 <= i < |both| && both[i] == x;
      assert e in ToCreateOf(k)(both[i]);
    }
    if exists x :: x in both && e in Policy(k, x).toRemove {
      var x :| x in both && e in Policy(k, x).toRemove;
      var i :| 0 <= i < |both| && both[i] == x;
      assert e in ToRemoveOf(k)(both[i]);
    }
  }

  /** What gets persisted: every new item, without its transient data, then
      every changed item as the copy left it, with the transient policy
      `GetPolicy` attached while the edges were collected. */
  lemma PersistedItems<T(!new)>(k: Kind<T>, c: Collaborators<T>, imports: seq<T>, existing: seq<T>,
                          byId: Linq.Comparer<T>, byData: Linq.Comparer<T>)
    requires Lawful(k)
    ensures var plan := Classify(k, c, imports, existing, byId, byData);
      && |plan.toPersist| == |plan.newItems| + |plan.changedItems|
      && (forall i :: 0 <= i < |plan.newItems| ==>
            plan.toPersist[i] == k.setTransient(Touched(k, plan.newItems[i]), None)
            && k.transient(plan.toPersist[i]).None?)
      && (forall i :: 0 <= i < |plan.changedItems| ==>
            var u := c.copyInto(imports, plan.changedItems[i]);
            plan.toPersist[|plan.newItems| + i] == Touched(k, u)
            && k.transient(plan.toPersist[|plan.newItems| + i]) == Some(Policy(k, u)))
  {
    var plan := Classify(k, c, imports, existing, byId, byData);
    PersistedShape(k, c, imports, plan.newItems, plan.changedItems);
  }

  /** `PersistedItems` for any new and changed items. */
  lemma PersistedShape<T(!new)>(k: Kind<T>, c: Collaborators<T>, imports: seq<T>, newItems: seq<T>, changedItems: seq<T>)
    requires Lawful(k)
    ensures var toPersist := Linq.Select(Linq.Select(newItems, TouchFn(k)), StripFn(k))
                             + Linq.Select(Linq.Select(changedItems, CopyFn(c, imports)), TouchFn(k));
      && |toPersist| == |newItems| + |changedItems|
      && (forall i :: 0 <= i < |newItems| ==>
            toPersist[i] == k.setTransient(Touched(k, newItems[i]), None)
            && k.transient(toPersist[i]).None?)
      && (forall i :: 0 <= i < |changedItems| ==>
            var u := c.copyInto(imports, changedItems[i]);
            toPersist[|newItems| + i] == Touched(k, u)
            && k.transient(toPersist[|newItems| + i]) == Some(Policy(k, u)))
  {
  }

  // ---------------------------------------------------------------------
  // What a run does to the context

  /** Apply order: every persist comes before the association of the new
      edges, which comes before every removal; each persist and each
      removal is a transaction of its own after a message clear. */
  lemma ApplyOrder<T>(k: Kind<T>, c: Collaborators<T>, plan: Plan<T>)
    ensures var effects := ApplyEffects(k, c, plan);
      var p := 2 * |plan.toPersist|;
      && |effects| == p + 1 + 2 * |plan.toRemove|
      && effects[p] == AssociateAll(plan.toCreate)
      && (forall i :: 0 <= i < p ==>
            effects[i] == ClearMessages || IsPersist(effects[i]))
      && (forall i :: p < i < |effects| ==>
            effects[i] == ClearMessages || IsRemoval(effects[i]))
  {
    var items := Linq.Select(plan.toPersist, k.wrap);
    PersistEffectsKinds(items);
    DisassociateEffectsKinds(plan.toRemove, c.relationshipType);
    var effects := ApplyEffects(k, c, plan);
    var persisted := PersistEffects(items);
    var removed := DisassociateEffects(plan.toRemove, c.relationshipType);
    var p := 2 * |plan.toPersist|;
    assert forall i :: 0 <= i < p ==> effects[i] == persisted[i];
    assert forall i :: p < i < |effects| ==> effects[i] == removed[i - p - 1];
  }

  /** The reconciliation adds no message of its own: every message the
      buffer receives from it comes from the host's pipelines. */
  lemma NoErrorMessage<T>(k: Kind<T>, c: Collaborators<T>, imports: seq<T>,
                          byId: Linq.Comparer<T>, byData: Linq.Comparer<T>, fault: T -> Option<ImportError>)
    ensures forall e :: e in RunEffects(k, c, imports, byId, byData, fault) ==> !e.AddMessage?
  {
    LookupEffectsShape(imports, k.id);
    if RunFault(k, c, imports, fault).None? {
      var plan := Classify(k, c, imports, Existing(k, c, imports), byId, byData);
      ApplyOrder(k, c, plan);
    }
  }

  /** A run that stops on an exception after its lookups writes nothing:
      its only calls are the lookups. */
  lemma FaultWritesNothing<T>(k: Kind<T>, c: Collaborators<T>, imports: seq<T>,
                              byId: Linq.Comparer<T>, byData: Linq.Comparer<T>, fault: T -> Option<ImportError>)
    requires RunFault(k, c, imports, fault).Some?
    ensures forall e :: e in RunEffects(k, c, imports, byId, byData, fault) ==> e.Find?
  {
    LookupEffectsShape(imports, k.id);
    assert RunEffects(k, c, imports, byId, byData, fault) == LookupEffects(imports, k.id);
  }

  /** A block whose transform succeeded aborts exactly when the
      reconciliation throws. Then it makes only lookups and messages, and
      ends with the error message; otherwise it adds no error message. */
  lemma TransformedOutcome<T>(k: Kind<T>, c: Collaborators<T>, items: seq<T>, warnings: seq<Warning>,
                              byId: Linq.Comparer<T>, byData: Linq.Comparer<T>, fault: T -> Option<ImportError>)
    ensures var o := BlockOutcome(k, c, Success((items, warnings)), byId, byData, fault);
      && o.error == RunFault(k, c, items, fault)
      && (o.error.Some? ==>
            && o.effects[|o.effects| - 1] == AddMessage(Error)
            && forall e :: e in o.effects ==> e.Find? || e.AddMessage?)
      && (o.error.None? ==> AddMessage(Error) !in o.effects)
  {
    var run := RunEffects(k, c, items, byId, byData, fault);
    var err := RunFault(k, c, items, fault);
    var o := BlockOutcome(k, c, Success((items, warnings)), byId, byData, fault);
    assert o.effects == [AddMessage(Information)] + ([AddMessage(Information)] + run + ErrorTail(err));
    if err.Some? {
      FaultWritesNothing(k, c, items, byId, byData, fault);
    } else {
      NoErrorMessage(k, c, items, byId, byData, fault);
    }
  }
}
