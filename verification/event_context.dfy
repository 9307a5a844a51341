/**
  The driver's ambient event context: three slots (the find batch size and
  limit, the kill-cursors collection namespace, the operation id) that an
  operation fills for the duration of a `using` scope so that event
  subscribers can read them.

  Each `Begin…` fills its slot only when the slot is empty and hands back a
  disposer that empties it; when the slot is already filled it hands back the
  no-op disposer. The slots are plain state of one logical flow, and the
  operation-id generator is a counter threaded through the calls.
 */
module EventContext {
  import opened Basics

  /** A database and collection name (its validation is not part of this model). */
  datatype CollectionNamespace = CollectionNamespace(databaseName: string, collectionName: string)

  datatype Context = Context(
    findOperationBatchSize: Option<int>,
    findOperationLimit: Option<int>,
    killCursorsCollectionNamespace: Option<CollectionNamespace>,
    operationId: Option<int>)

  const Empty := Context(None, None, None, None)

  /** The disposers the `Begin…` calls hand out; none of them carries state. */
  datatype Disposer = NoOpDisposer | FindOperationDisposer | KillCursorsOperationDisposer | OperationIdDisposer

  /**
    The operation-id generator, as a counter: each id handed out is larger
    than every earlier one, so ids never repeat.
   */
  datatype IdGenerator = IdGenerator(lastId: int)

  function GetNextId(g: IdGenerator): (r: (int, IdGenerator))
    ensures r.0 > g.lastId && r.1.lastId == r.0
  {
    (g.lastId + 1, IdGenerator(g.lastId + 1))
  }

  datatype Begun = Begun(context: Context, disposer: Disposer)

  /**
    `BeginFind`: installs batch size and limit together when no batch size is
    set, even over a limit left behind; otherwise nothing changes.
   */
  function BeginFind(ctx: Context, batchSize: Option<int>, limit: Option<int>): (b: Begun)
    ensures ctx.findOperationBatchSize.None? ==>
              b == Begun(ctx.(findOperationBatchSize := batchSize, findOperationLimit := limit), FindOperationDisposer)
    ensures ctx.findOperationBatchSize.Some? ==> b == Begun(ctx, NoOpDisposer)
    ensures b.context.killCursorsCollectionNamespace == ctx.killCursorsCollectionNamespace
    ensures b.context.operationId == ctx.operationId
  {
    if ctx.findOperationBatchSize == None then
      Begun(Context(batchSize, limit, ctx.killCursorsCollectionNamespace, ctx.operationId), FindOperationDisposer)
    else
      Begun(ctx, NoOpDisposer)
  }

  /** `BeginKillCursors`: installs the namespace when none is set; otherwise nothing changes. */
  function BeginKillCursors(ctx: Context, collectionNamespace: Option<CollectionNamespace>): (b: Begun)
    ensures ctx.killCursorsCollectionNamespace.None? ==>
              b == Begun(ctx.(killCursorsCollectionNamespace := collectionNamespace), KillCursorsOperationDisposer)
    ensures ctx.killCursorsCollectionNamespace.Some? ==> b == Begun(ctx, NoOpDisposer)
    ensures b.context.(killCursorsCollectionNamespace := None) == ctx.(killCursorsCollectionNamespace := None)
  {
    if ctx.killCursorsCollectionNamespace == None then
      Begun(ctx.(killCursorsCollectionNamespace := collectionNamespace), KillCursorsOperationDisposer)
    else
      Begun(ctx, NoOpDisposer)
  }

  datatype BegunOperation = BegunOperation(context: Context, disposer: Disposer, ids: IdGenerator)

  /**
    `BeginOperation(long?)`: when no operation id is set, installs the given
    one or, for `null`, a fresh id from the generator (which is consulted only
    then); a nested call changes nothing.
   */
  function BeginOperation(ctx: Context, operationId: Option<int>, ids: IdGenerator): (b: BegunOperation)
    ensures ctx.operationId.Some? ==> b == BegunOperation(ctx, NoOpDisposer, ids)
    ensures ctx.operationId.None? && operationId.Some? ==>
              b == BegunOperation(ctx.(operationId := operationId), OperationIdDisposer, ids)
    ensures ctx.operationId.None? && operationId.None? ==>
              && b.disposer == OperationIdDisposer
              && b.ids.lastId > ids.lastId
              && b.context == ctx.(operationId := Some(b.ids.lastId))
    ensures ctx.operationId.None? ==> b.context.operationId.Some?
  {
    if ctx.operationId == None then
      match operationId
      case Some(id) => BegunOperation(ctx.(operationId := Some(id)), OperationIdDisposer, ids)
      case None =>
        var (id, ids') := GetNextId(ids);
        BegunOperation(ctx.(operationId := Some(id)), OperationIdDisposer, ids')
    else
      BegunOperation(ctx, NoOpDisposer, ids)
  }

  /** `BeginOperation()`: the same with no id, so an outermost scope always gets a fresh one. */
  function BeginFreshOperation(ctx: Context, ids: IdGenerator): (b: BegunOperation)
    ensures ctx.operationId.None? ==>
              && b.disposer == OperationIdDisposer
              && b.ids.lastId > ids.lastId
              && b.context == ctx.(operationId := Some(b.ids.lastId))
    ensures ctx.operationId.Some? ==> b == BegunOperation(ctx, NoOpDisposer, ids)
  {
    BeginOperation(ctx, None, ids)
  }

  /** Disposing a disposer: each clears its own slots, whatever they hold now; the no-op one changes nothing. */
  function Dispose(ctx: Context, d: Disposer): (r: Context)
    ensures d.NoOpDisposer? ==> r == ctx
    ensures d.FindOperationDisposer? ==> r == ctx.(findOperationBatchSize := None, findOperationLimit := None)
    ensures d.KillCursorsOperationDisposer? ==> r == ctx.(killCursorsCollectionNamespace := None)
    ensures d.OperationIdDisposer? ==> r == ctx.(operationId := None)
  {
    match d
    case NoOpDisposer => ctx
    case FindOperationDisposer => Context(None, None, ctx.killCursorsCollectionNamespace, ctx.operationId)
    case KillCursorsOperationDisposer => Context(ctx.findOperationBatchSize, ctx.findOperationLimit, None, ctx.operationId)
    case OperationIdDisposer => Context(ctx.findOperationBatchSize, ctx.findOperationLimit, ctx.killCursorsCollectionNamespace, None)
  }

  /** A `BeginFind` with a null batch size leaves the guard empty, so the next `BeginFind` installs again. */
  lemma NullBatchSizeDoesNotGuard(ctx: Context, limit: Option<int>, batchSize': Option<int>, limit': Option<int>)
    requires ctx.findOperationBatchSize.None?
    ensures BeginFind(BeginFind(ctx, None, limit).context, batchSize', limit').disposer == FindOperationDisposer
    ensures BeginFind(BeginFind(ctx, None, limit).context, batchSize', limit').context.findOperationLimit == limit'
  {
  }

  /** A nested `BeginOperation` keeps the outer id, and disposing it keeps it too. */
  lemma NestedOperationKeepsOuterId(ctx: Context, outer: Option<int>, inner: Option<int>, ids: IdGenerator)
    requires ctx.operationId.None?
    ensures var o := BeginOperation(ctx, outer, ids);
            var i := BeginOperation(o.context, inner, o.ids);
            && i.context.operationId == o.context.operationId
            && Dispose(i.context, i.disposer).operationId == o.context.operationId
            && Dispose(Dispose(i.context, i.disposer), o.disposer) == ctx
  {
  }

  // ---------------------------------------------------------------------------
  // Nested `using` scopes
  // ---------------------------------------------------------------------------

  /**
    A program of `using (EventContext.Begin…(…)) { body }` blocks: each scope
    runs its body, disposes what it began, then runs `next`.
   */
  datatype Scope =
    | Done
    | FindScope(batchSize: Option<int>, limit: Option<int>, body: Scope, next: Scope)
    | KillCursorsScope(collectionNamespace: Option<CollectionNamespace>, body: Scope, next: Scope)
    | OperationScope(operationId: Option<int>, body: Scope, next: Scope)

  /** The ambient slots and the id generator of one logical flow. */
  datatype Flow = Flow(context: Context, ids: IdGenerator)

  function Run(fl: Flow, s: Scope): (r: Flow)
    ensures r.ids.lastId >= fl.ids.lastId
    decreases s
  {
    match s
    case Done => fl
    case FindScope(batchSize, limit, body, next) =>
      var b := BeginFind(fl.context, batchSize, limit);
      var inner := Run(Flow(b.context, fl.ids), body);
      Run(Flow(Dispose(inner.context, b.disposer), inner.ids), next)
    case KillCursorsScope(ns, body, next) =>
      var b := BeginKillCursors(fl.context, ns);
      var inner := Run(Flow(b.context, fl.ids), body);
      Run(Flow(Dispose(inner.context, b.disposer), inner.ids), next)
    case OperationScope(id, body, next) =>
      var b := BeginOperation(fl.context, id, fl.ids);
      var inner := Run(Flow(b.context, b.ids), body);
      Run(Flow(Dispose(inner.context, b.disposer), inner.ids), next)
  }

  /** No limit is left behind without a batch size: the state every find scope with a batch size keeps. */
  predicate FindSlotsConsistent(ctx: Context) {
    ctx.findOperationBatchSize.None? ==> ctx.findOperationLimit.None?
  }

  /**
    What any program of scopes keeps, slot by slot: the kill-cursors and
    operation-id slots come back as they were; a batch size that was set keeps
    both find slots; a missing batch size stays missing, and the limit beside
    it either survives or is cleared.
   */
  predicate SlotsKept(before: Context, after: Context) {
    && after.killCursorsCollectionNamespace == before.killCursorsCollectionNamespace
    && after.operationId == before.operationId
    && (before.findOperationBatchSize.Some? ==>
          after.findOperationBatchSize == before.findOperationBatchSize
          && after.findOperationLimit == before.findOperationLimit)
    && (before.findOperationBatchSize.None? ==>
          after.findOperationBatchSize.None?
          && (after.findOperationLimit == before.findOperationLimit || after.findOperationLimit.None?))
  }

  /** Every program of properly nested scopes, including find scopes begun with a null batch size, keeps the slots. */
  lemma {:induction false} RunKeepsSlots(fl: Flow, s: Scope)
    ensures SlotsKept(fl.context, Run(fl, s).context)
    decreases s
  {
    match s
    case Done =>
    case FindScope(batchSize, limit, body, next) =>
      var b := BeginFind(fl.context, batchSize, limit);
      var inner := Run(Flow(b.context, fl.ids), body);
      RunKeepsSlots(Flow(b.context, fl.ids), body);
      var mid := Flow(Dispose(inner.context, b.disposer), inner.ids);
      assert SlotsKept(fl.context, mid.context);
      RunKeepsSlots(mid, next);
    case KillCursorsScope(ns, body, next) =>
      var b := BeginKillCursors(fl.context, ns);
      var inner := Run(Flow(b.context, fl.ids), body);
      RunKeepsSlots(Flow(b.context, fl.ids), body);
      var mid := Flow(Dispose(inner.context, b.disposer), inner.ids);
      assert SlotsKept(fl.context, mid.context);
      RunKeepsSlots(mid, next);
    case OperationScope(id, body, next) =>
      var b := BeginOperation(fl.context, id, fl.ids);
      var inner := Run(Flow(b.context, b.ids), body);
      RunKeepsSlots(Flow(b.context, b.ids), body);
      var mid := Flow(Dispose(inner.context, b.disposer), inner.ids);
      assert SlotsKept(fl.context, mid.context);
      RunKeepsSlots(mid, next);
  }

  /**
    Properly nested scopes leave the ambient slots exactly as they found
    them, whatever batch sizes the find scopes are begun with, provided no
    stray limit is set when the program starts.
   */
  lemma {:induction false} NestedScopesRestoreContext(fl: Flow, s: Scope)
    requires FindSlotsConsistent(fl.context)
    ensures Run(fl, s).context == fl.context
  {
    RunKeepsSlots(fl, s);
  }

  /** The case of a find scope with a null batch size holding a nested find scope, started from no context at all. */
  lemma NullBatchSizeScopeRestoresContext(ids: IdGenerator)
    ensures Run(Flow(Empty, ids), FindScope(None, Some(5), FindScope(Some(3), Some(7), Done, Done), Done)).context == Empty
  {
  }

  /**
    A find scope begun with a null batch size does not guard its limit: a
    nested find scope installs its own values, and its disposal clears the
    outer limit for the rest of the outer body.
   */
  lemma InnerFindClearsOuterLimit(ids: IdGenerator)
    ensures var outer := BeginFind(Empty, None, Some(5)).context;
            && outer.findOperationLimit == Some(5)
            && Run(Flow(outer, ids), FindScope(Some(3), Some(7), Done, Done)).context.findOperationLimit.None?
  {
  }
}
