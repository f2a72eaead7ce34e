/** The three bulk commands the reconciliation applies its result with:
    look entities up, persist entities, remove parent edges. Each walks its
    input once, in order, against the commerce context. What the storage
    pipelines do inside is not part of this model: the context records
    every call it receives as an effect, and the messages the host writes
    for a call are given by a function. */
module BulkCommands {
  import opened Wrappers
  import opened Host
  import opened Associations
  import opened Entities

  /** A commerce entity, of either kind the import writes. */
  datatype Entity = SellableEntity(item: SellableItem) | CategoryEntity(category: Category)

  /** A step run inside one `PerformTransaction` scope. */
  datatype Step =
    | Persist(entity: Entity)                          // IPersistEntityPipeline
    | DeleteRelationship(parentId: Option<string>, itemId: Option<string>, relationshipType: string)

  /** `KnownResultCodes`: the code a message is added under. */
  datatype ResultCode = Information | Error

  /** A call the context sees, in the order it sees them. */
  datatype Effect =
    | AddMessage(code: ResultCode)                     // commerceContext.AddMessage(code, ...); its text is the host's
    | ClearMessages                                    // commerceContext.ClearMessages()
    | Find(id: string)                                 // IFindEntityPipeline, never creating
    | Transaction(steps: seq<Step>)                    // one PerformTransaction scope
    | AssociateAll(edges: seq<ParentEdge>)             // AssociateToParentBulkCommand

  /** A transaction that persists one entity. */
  predicate IsPersist(e: Effect) {
    e.Transaction? && |e.steps| == 1 && e.steps[0].Persist?
  }

  /** A transaction that deletes one relationship. */
  predicate IsRemoval(e: Effect) {
    e.Transaction? && |e.steps| == 1 && e.steps[0].DeleteRelationship?
  }

  /** The messages after a run of effects: a clear empties the buffer; every
      other call appends what the host writes for it. */
  function Replay(m0: seq<string>, effects: seq<Effect>, report: Effect -> seq<string>): seq<string> {
    if |effects| == 0 then m0
    else
      var m := Replay(m0, effects[..|effects| - 1], report);
      var e := effects[|effects| - 1];
      if e.ClearMessages? then [] else m + report(e)
  }

  lemma ReplaySnoc(m0: seq<string>, effects: seq<Effect>, more: seq<Effect>, report: Effect -> seq<string>)
    requires |more| == 1 || |more| == 2
    ensures Replay(m0, effects + more, report)
         == Replay(Replay(m0, effects, report), more, report)
  {
    if |more| == 1 {
      assert (effects + more)[..|effects|] == effects;
      assert more[..0] == [];
    } else {
      var first := effects + more[..1];
      assert (effects + more)[..|effects| + 1] == first;
      assert first[..|effects|] == effects;
      assert more[..1][..0] == [];
      assert more[..1] == [more[0]];
    }
  }

  /** The commerce context: the message buffer commands clear and the host
      writes to, the logger's warnings, the calls made on storage, and the
      pipeline's abort flag, which travels with it. */
  class CommerceContext {
    var messages: seq<string>
    var log: seq<Warning>
    var effects: seq<Effect>
    var aborted: Option<ImportError>

    constructor ()
      ensures messages == [] && log == [] && effects == [] && aborted == None
    {
      messages := [];
      log := [];
      effects := [];
      aborted := None;
    }

    /** Makes one call: records it and lets the host write its messages. */
    method Perform(e: Effect, report: Effect -> seq<string>)
      modifies this
      ensures effects == old(effects) + [e]
      ensures messages == Replay(old(messages), [e], report)
      ensures log == old(log) && aborted == old(aborted)
    {
      assert [e][..0] == [];
      effects := effects + [e];
      if e.ClearMessages? {
        messages := [];
      } else {
        messages := messages + report(e);
      }
    }
  }

  // ---------------------------------------------------------------------
  // GetEntityBulkCommand

  /** One lookup per item, keyed by its id. */
  function LookupEffects<T>(items: seq<T>, id: T -> string): seq<Effect> {
    if |items| == 0 then [] else LookupEffects(items[..|items| - 1], id) + [Find(id(items[|items| - 1]))]
  }

  /** What the lookups return: the entity stored under each item's id, for
      the items that have one, in input order. */
  function Found<T>(items: seq<T>, id: T -> string, find: string -> Option<T>): seq<T> {
    if |items| == 0 then []
    else
      var prev := Found(items[..|items| - 1], id, find);
      var hit := find(id(items[|items| - 1]));
      if hit.Some? then prev + [hit.value] else prev
  }

  method GetEntityBulk<T>(ctx: CommerceContext, items: seq<T>, id: T -> string, find: string -> Option<T>,
                          report: Effect -> seq<string>)
    returns (returnedItems: seq<T>)
    modifies ctx
    ensures returnedItems == Found(items, id, find)
    ensures ctx.effects == old(ctx.effects) + LookupEffects(items, id)
    ensures ctx.messages == Replay(old(ctx.messages), LookupEffects(items, id), report)
    ensures ctx.log == old(ctx.log) && ctx.aborted == old(ctx.aborted)
  {
    returnedItems := [];
    for i := 0 to |items|
      invariant returnedItems == Found(items[..i], id, find)
      invariant ctx.effects == old(ctx.effects) + LookupEffects(items[..i], id)
      invariant ctx.messages == Replay(old(ctx.messages), LookupEffects(items[..i], id), report)
      invariant ctx.log == old(ctx.log) && ctx.aborted == old(ctx.aborted)
    {
      assert items[..i + 1][..i] == items[..i];
      var e := Find(id(items[i]));
      ReplaySnoc(old(ctx.messages), LookupEffects(items[..i], id), [e], report);
      ctx.Perform(e, report);
      var commerceEntity := find(id(items[i]));
      if commerceEntity.Some? {
        returnedItems := returnedItems + [commerceEntity.value];
      }
    }
    assert items[..|items|] == items;
  }

  /** Exactly one lookup per item, by its id, in input order. */
  lemma {:induction false} LookupEffectsShape<T>(items: seq<T>, id: T -> string)
    ensures |LookupEffects(items, id)| == |items|
    ensures forall k :: 0 <= k < |items| ==> LookupEffects(items, id)[k] == Find(id(items[k]))
  {
    if |items| > 0 {
      LookupEffectsShape(items[..|items| - 1], id);
    }
  }

  /** The lookups return at most one entity per item, in the order of the
      items they were found for: `origin` names, for every entity returned,
      the item whose id found it, strictly ascending, and it names every
      item whose id found something. */
  lemma {:induction false} FoundOrder<T>(items: seq<T>, id: T -> string, find: string -> Option<T>)
    returns (origin: seq<nat>)
    ensures |origin| == |Found(items, id, find)| <= |items|
    ensures forall k :: 0 <= k < |origin| ==>
              origin[k] < |items| && find(id(items[origin[k]])) == Some(Found(items, id, find)[k])
    ensures forall k, l :: 0 <= k < l < |origin| ==> origin[k] < origin[l]
    ensures forall i :: 0 <= i < |items| && find(id(items[i])).Some? ==> i in origin
  {
    if |items| == 0 {
      origin := [];
    } else {
      var init := items[..|items| - 1];
      var last := |items| - 1;
      var prev := FoundOrder(init, id, find);
      var before := Found(init, id, find);
      var r := Found(items, id, find);
      assert forall k :: 0 <= k < |init| ==> init[k] == items[k];
      if find(id(items[last])).Some? {
        origin := prev + [last];
        assert r == before + [find(id(items[last])).value];
        forall k | 0 <= k < |origin|
          ensures origin[k] < |items| && find(id(items[origin[k]])) == Some(r[k])
        {
          if k < |prev| {
            assert origin[k] == prev[k] && r[k] == before[k];
          }
        }
      } else {
        origin := prev;
        assert r == before;
      }
      forall i | 0 <= i < |items| && find(id(items[i])).Some?
        ensures i in origin
      {
        if i < last {
          assert init[i] == items[i];
          assert i in prev;
        }
      }
    }
  }

  // ---------------------------------------------------------------------
  // PersistEntityBulkCommand

  /** Per item: clear the messages, then one transaction persisting it. */
  function PersistEffects(items: seq<Entity>): seq<Effect> {
    if |items| == 0 then []
    else PersistEffects(items[..|items| - 1]) + [ClearMessages, Transaction([Persist(items[|items| - 1])])]
  }

  method PersistEntityBulk(ctx: CommerceContext, items: seq<Entity>, report: Effect -> seq<string>)
    returns (ok: bool)
    modifies ctx
    ensures ok
    ensures ctx.effects == old(ctx.effects) + PersistEffects(items)
    ensures ctx.messages == Replay(old(ctx.messages), PersistEffects(items), report)
    ensures ctx.log == old(ctx.log) && ctx.aborted == old(ctx.aborted)
  {
    for i := 0 to |items|
      invariant ctx.effects == old(ctx.effects) + PersistEffects(items[..i])
      invariant ctx.messages == Replay(old(ctx.messages), PersistEffects(items[..i]), report)
      invariant ctx.log == old(ctx.log) && ctx.aborted == old(ctx.aborted)
    {
      assert items[..i + 1][..i] == items[..i];
      var txn := Transaction([Persist(items[i])]);
      ReplaySnoc(old(ctx.messages), PersistEffects(items[..i]), [ClearMessages, txn], report);
      ctx.Perform(ClearMessages, report);
      ctx.Perform(txn, report);
    }
    assert items[..|items|] == items;
    ok := true;
  }

  /** Every item is persisted exactly once, in input order, each in its own
      transaction, and the messages are cleared before each. */
  lemma {:induction false} PersistEffectsShape(items: seq<Entity>)
    ensures |PersistEffects(items)| == 2 * |items|
    ensures forall k :: 0 <= k < |items| ==>
              && PersistEffects(items)[2 * k] == ClearMessages
              && PersistEffects(items)[2 * k + 1] == Transaction([Persist(items[k])])
  {
    if |items| > 0 {
      PersistEffectsShape(items[..|items| - 1]);
    }
  }

  /** A bulk persist makes only clears and persisting transactions. */
  lemma {:induction false} PersistEffectsKinds(items: seq<Entity>)
    ensures |PersistEffects(items)| == 2 * |items|
    ensures forall i :: 0 <= i < |PersistEffects(items)| ==>
              PersistEffects(items)[i] == ClearMessages || IsPersist(PersistEffects(items)[i])
  {
    if |items| > 0 {
      PersistEffectsKinds(items[..|items| - 1]);
    }
  }

  /** After a bulk persist of at least one item, the buffer holds only what
      the host wrote for the last transaction: earlier messages are gone. */
  lemma LastTransactionMessages(m0: seq<string>, items: seq<Entity>, report: Effect -> seq<string>)
    requires |items| > 0
    ensures Replay(m0, PersistEffects(items), report) == report(Transaction([Persist(items[|items| - 1])]))
  {
    var prev := PersistEffects(items[..|items| - 1]);
    var txn := Transaction([Persist(items[|items| - 1])]);
    ReplaySnoc(m0, prev, [ClearMessages, txn], report);
    assert [ClearMessages, txn][..1] == [ClearMessages];
    assert [ClearMessages][..0] == [];
  }

  // ---------------------------------------------------------------------
  // DisassociateToParentBulkCommand

  /** The relationship type the host reports between a parent and a child. */
  type RelationshipType = (Option<string>, Option<string>) -> string

  /** Removing one edge: the type of the relationship between its parent and
      its item, then the delete of that same pair under that type. */
  function DeleteStep(e: ParentEdge, relationshipType: RelationshipType): Step {
    var t := relationshipType(e.ParentId(), e.ItemId());
    DeleteRelationship(e.ParentId(), e.ItemId(), t)
  }

  /** Per edge: clear the messages, then one transaction removing it. */
  function DisassociateEffects(edges: seq<ParentEdge>, relationshipType: RelationshipType): seq<Effect> {
    if |edges| == 0 then []
    else DisassociateEffects(edges[..|edges| - 1], relationshipType)
           + [ClearMessages, Transaction([DeleteStep(edges[|edges| - 1], relationshipType)])]
  }

  method DisassociateToParentBulk(ctx: CommerceContext, associationList: seq<ParentEdge>,
                                  relationshipType: RelationshipType, report: Effect -> seq<string>)
    returns (ok: bool)
    modifies ctx
    ensures ok
    ensures ctx.effects == old(ctx.effects) + DisassociateEffects(associationList, relationshipType)
    ensures ctx.messages == Replay(old(ctx.messages), DisassociateEffects(associationList, relationshipType), report)
    ensures ctx.log == old(ctx.log) && ctx.aborted == old(ctx.aborted)
  {
    for i := 0 to |associationList|
      invariant ctx.effects == old(ctx.effects) + DisassociateEffects(associationList[..i], relationshipType)
      invariant ctx.messages == Replay(old(ctx.messages), DisassociateEffects(associationList[..i], relationshipType), report)
      invariant ctx.log == old(ctx.log) && ctx.aborted == old(ctx.aborted)
    {
      assert associationList[..i + 1][..i] == associationList[..i];
      var association := associationList[i];
      var t := relationshipType(association.ParentId(), association.ItemId());
      var txn := Transaction([DeleteRelationship(association.ParentId(), association.ItemId(), t)]);
      ReplaySnoc(old(ctx.messages), DisassociateEffects(associationList[..i], relationshipType), [ClearMessages, txn], report);
      ctx.Perform(ClearMessages, report);
      ctx.Perform(txn, report);
    }
    assert associationList[..|associationList|] == associationList;
    ok := true;
  }

  /** A bulk disassociation makes only clears and deleting transactions. */
  lemma {:induction false} DisassociateEffectsKinds(edges: seq<ParentEdge>, relationshipType: RelationshipType)
    ensures |DisassociateEffects(edges, relationshipType)| == 2 * |edges|
    ensures forall i :: 0 <= i < |DisassociateEffects(edges, relationshipType)| ==>
              DisassociateEffects(edges, relationshipType)[i] == ClearMessages
              || IsRemoval(DisassociateEffects(edges, relationshipType)[i])
  {
    if |edges| > 0 {
      DisassociateEffectsKinds(edges[..|edges| - 1], relationshipType);
    }
  }

  /** Every edge is removed exactly once, in input order, in its own
      transaction after a clear; the delete names the edge's own parent and
      item, under the type reported for exactly that pair. */
  lemma {:induction false} DisassociateEffectsShape(edges: seq<ParentEdge>, relationshipType: RelationshipType)
    ensures |DisassociateEffects(edges, relationshipType)| == 2 * |edges|
    ensures forall k :: 0 <= k < |edges| ==>
              && DisassociateEffects(edges, relationshipType)[2 * k] == ClearMessages
              && DisassociateEffects(edges, relationshipType)[2 * k + 1].Transaction?
              && var steps := DisassociateEffects(edges, relationshipType)[2 * k + 1].steps;
                 && |steps| == 1 && steps[0].DeleteRelationship?
                 && steps[0].parentId == edges[k].ParentId() && steps[0].itemId == edges[k].ItemId()
                 && steps[0].relationshipType == relationshipType(edges[k].ParentId(), edges[k].ItemId())
  {
    if |edges| > 0 {
      DisassociateEffectsShape(edges[..|edges| - 1], relationshipType);
    }
  }
}
