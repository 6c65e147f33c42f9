/** Whole runs of matrix requests from the empty database. */
module MatrixHistory {
  import opened Wrappers
  import opened Priorities
  import opened Matrix
  import opened MatrixPublication
  import opened MatrixSafety

  datatype Event = Event(request: Request, ctx: Context)

  /** `states` follows `events`, one request at a time, from the empty database. */
  ghost predicate IsRun(states: seq<State>, events: seq<Event>) {
    && |states| == |events| + 1 && states[0] == EMPTY
    && forall i :: 0 <= i < |events| ==> states[i + 1] == After(states[i], events[i].request, events[i].ctx)
  }

  lemma AddKeeps(st: State, id: Id, form: Form, user: string, resources: bool, ctx: Context)
    requires Inv(st) && Add(st, id, form, user, resources, ctx).Ok?
    ensures Inv(Add(st, id, form, user, resources, ctx).value)
  {
    hide Inv;
    hide Store;
    StoreKeeps(st, id, Item(form, SheetOf(st, form.subsection).value, None, user), ctx.now);
  }

  lemma UpdateKeeps(st: State, id: Id, form: Form, resources: bool, ctx: Context)
    requires Inv(st) && Update(st, id, form, resources, ctx).Ok?
    ensures Inv(Update(st, id, form, resources, ctx).value)
  {
    hide Inv;
    hide Store;
    StoreKeeps(st, id, st.items[id].(form := form, sheet := SheetOf(st, form.subsection).value), ctx.now);
  }

  /** The queue takes no part in the invariant. */
  lemma QueueFree(st: State, st': State)
    requires Inv(st) && st' == st.(queue := st'.queue)
    ensures Inv(st')
  {
    hide MissingFields;
    hide Complete;
    forall i | i in st'.items
      ensures SheetOf(st', st'.items[i].form.subsection) == SheetOf(st, st.items[i].form.subsection) {}
    SameLevelsKeep(st, st');
  }

  lemma ItemGone(st: State, id: Id)
    requires Inv(st)
    ensures Inv(st.(items := st.items - {id}))
  {
    hide MissingFields;
    hide Complete;
    var st' := st.(items := st.items - {id});
    forall i | i in st'.items
      ensures SheetOf(st', st'.items[i].form.subsection) == SheetOf(st, st.items[i].form.subsection) {}
    SameLevelsKeep(st, st');
  }

  lemma HandleKeeps(st: State, r: Request, ctx: Context)
    requires Inv(st)
    ensures Inv(After(st, r, ctx))
  {
    hide Inv;
    if Handle(st, r, ctx).Ok? {
      match r
      case CreateNode(kind, id, parent, labels) => CreateKeeps(st, kind, id, parent, labels, ctx.lower);
      case DeleteNode(kind, id, withQuestions) => DeleteKeeps(st, kind, id, withQuestions);
      case Reorder(kind, parent, ordered) => ReorderKeeps(st, kind, parent, ordered);
      case CreateItem(id, form, user, resources) => AddKeeps(st, id, form, user, resources, ctx);
      case CreateItemFromQueue(id, queued, form, resources) =>
        AddKeeps(st, id, form, st.queue[queued].suggestedBy, resources, ctx);
        QueueFree(Add(st, id, form, st.queue[queued].suggestedBy, resources, ctx).value, Handle(st, r, ctx).value);
      case UpdateItem(id, form, resources) => UpdateKeeps(st, id, form, resources, ctx);
      case DeleteItem(id) => ItemGone(st, id);
      case SwitchStatus(id, status) => SwitchKeeps(st, id, status, ctx);
      case Enqueue(_, _) => QueueFree(st, Handle(st, r, ctx).value);
      case DeleteQueued(_) => QueueFree(st, Handle(st, r, ctx).value);
    }
  }

  lemma {:induction false} RunKeepsInv(states: seq<State>, events: seq<Event>, i: nat)
    requires IsRun(states, events) && i < |states|
    ensures Inv(states[i])
  {
    if i == 0 {
      assert forall kind :: Level(EMPTY, kind) == map[];
    } else {
      hide Inv;
      RunKeepsInv(states, events, i - 1);
      assert states[(i - 1) + 1] == After(states[i - 1], events[i - 1].request, events[i - 1].ctx);
      HandleKeeps(states[i - 1], events[i - 1].request, events[i - 1].ctx);
    }
  }

  // ---- what every reachable state has ----

  /** Every reachable question names the sheet its subsection leads to, every published one
      is complete and has its publication time, and siblings never share a priority. */
  lemma ReachableStates(states: seq<State>, events: seq<Event>, i: nat)
    requires IsRun(states, events) && i < |states|
    ensures ItemsPlaced(states[i]) && ParentsExist(states[i])
    ensures PublishedReady(states[i])
    ensures forall kind, parent :: Separated(Children(Level(states[i], kind), parent))
  {
    RunKeepsInv(states, events, i);
  }

  /** No request of any run is refused by a RESTRICT foreign key, and a delete request that
      does not ask for it never removes a question. */
  lemma RunsNeverRestricted(states: seq<State>, events: seq<Event>, i: nat)
    requires IsRun(states, events) && i < |events|
    ensures Handle(states[i], events[i].request, events[i].ctx) != Err(RestrictViolated)
    ensures
      var r := events[i].request;
      r.DeleteNode? && !r.withQuestions ==> states[i + 1].items == states[i].items
  {
    RunKeepsInv(states, events, i);
    var st, r := states[i], events[i].request;
    assert states[i + 1] == After(st, r, events[i].ctx);
    hide Inv;
    if r.DeleteNode? && r.id in Level(st, r.kind) {
      assert Linked(st) by { InvLinks(st); }
      DeleteExact(st, r.kind, r.id, r.withQuestions);
      hide Delete;
    }
  }

  lemma InvLinks(st: State)
    requires Inv(st)
    ensures Linked(st)
  {
  }

  // ---- the life of one question ----

  /** A question keeps its suggester, and its publication time once it has one. */
  predicate Continues(before: Item, after: Item) {
    after.suggestedBy == before.suggestedBy && (before.publishedAt.Some? ==> after.publishedAt == before.publishedAt)
  }

  predicate OnStructure(r: Request) {
    r.CreateNode? || r.DeleteNode? || r.Reorder?
  }

  ghost predicate KeepsRows(st: State, st': State) {
    st'.queue == st.queue && forall i :: i in st'.items ==> i in st.items && st'.items[i] == st.items[i]
  }

  lemma DeleteKeepsRows(st: State, kind: Kind, id: Id, withQuestions: bool)
    requires Delete(st, kind, id, withQuestions).Ok?
    ensures KeepsRows(st, Delete(st, kind, id, withQuestions).value)
  {
    hide InspectedSubsections;
    hide CascadedSections;
    hide CascadedSubsections;
  }

  lemma CreateKeepsRows(st: State, kind: Kind, id: Id, parent: Id, labels: seq<string>, lower: string -> string)
    requires Create(st, kind, id, parent, labels, lower).Ok?
    ensures KeepsRows(st, Create(st, kind, id, parent, labels, lower).value)
  {
    hide LabelTaken;
    hide Children;
  }

  lemma ReorderKeepsRows(st: State, kind: Kind, parent: Id, ordered: seq<Id>)
    requires ReorderNodes(st, kind, parent, ordered).Ok?
    ensures KeepsRows(st, ReorderNodes(st, kind, parent, ordered).value)
  {
    hide MatrixAccepts;
    hide SetPriorities;
    hide Children;
  }

  /** Requests on the structure leave the queue alone and change no question they keep. */
  lemma StructureKeepsRows(st: State, r: Request, ctx: Context)
    requires OnStructure(r)
    ensures KeepsRows(st, After(st, r, ctx))
  {
    hide Create;
    hide Delete;
    hide ReorderNodes;
    hide Add;
    hide Update;
    hide Switch;
    if Handle(st, r, ctx).Ok? {
      match r
      case CreateNode(kind, id, parent, labels) => CreateKeepsRows(st, kind, id, parent, labels, ctx.lower);
      case DeleteNode(kind, id, withQuestions) => DeleteKeepsRows(st, kind, id, withQuestions);
      case Reorder(kind, parent, ordered) => ReorderKeepsRows(st, kind, parent, ordered);
    }
  }

  lemma RequestContinues(st: State, r: Request, ctx: Context, id: Id)
    requires id in st.items && id in After(st, r, ctx).items
    ensures Continues(st.items[id], After(st, r, ctx).items[id])
  {
    hide MissingFields;
    hide Complete;
    hide SlugTaken;
    hide Create;
    hide Delete;
    hide ReorderNodes;
    if OnStructure(r) { StructureKeepsRows(st, r, ctx); }
  }

  /** Over any stretch of a run through which a question lives, its suggester never changes
      and its publication time never changes once set. */
  lemma {:induction false} QuestionContinues(states: seq<State>, events: seq<Event>, i: nat, j: nat, id: Id)
    requires IsRun(states, events) && i <= j < |states|
    requires forall k :: i <= k <= j ==> id in states[k].items
    ensures Continues(states[i].items[id], states[j].items[id])
    decreases j - i
  {
    hide After;
    if i < j {
      QuestionContinues(states, events, i, j - 1, id);
      assert states[(j - 1) + 1] == After(states[j - 1], events[j - 1].request, events[j - 1].ctx);
      RequestContinues(states[j - 1], events[j - 1].request, events[j - 1].ctx, id);
    }
  }

  /** A queued question turned into a new question leaves the queue in the same step; if the
      step is refused it stays there. Its suggester follows it for as long as it lives. */
  lemma QueuedBecomesQuestion(states: seq<State>, events: seq<Event>, i: nat, j: nat)
    requires IsRun(states, events) && i < j < |states| && events[i].request.CreateItemFromQueue?
    requires Handle(states[i], events[i].request, events[i].ctx).Ok?
    requires forall k :: i < k <= j ==> events[i].request.id in states[k].items
    ensures
      var q, id := events[i].request.queued, events[i].request.id;
      && q in states[i].queue && id !in states[i].items
      && states[i + 1].queue == states[i].queue - {q} && states[i + 1].items.Keys == states[i].items.Keys + {id}
      && states[j].items[id].suggestedBy == states[i].queue[q].suggestedBy
  {
    assert states[i + 1] == After(states[i], events[i].request, events[i].ctx);
    QuestionContinues(states, events, i + 1, j, events[i].request.id);
    hide MissingFields;
    hide Complete;
    hide SlugTaken;
  }

  /** A question leaves the queue only by being deleted from it or by becoming an item. */
  lemma QueueExits(st: State, r: Request, ctx: Context, q: Id)
    requires q in st.queue && q !in After(st, r, ctx).queue
    ensures r == DeleteQueued(q)
         || (r.CreateItemFromQueue? && r.queued == q && r.id !in st.items && r.id in After(st, r, ctx).items)
  {
    hide MissingFields;
    hide Complete;
    hide SlugTaken;
    hide Create;
    hide Delete;
    hide ReorderNodes;
    if OnStructure(r) { StructureKeepsRows(st, r, ctx); }
  }

  /** The queue in front of the requests on single rows: a question put there stays there, as it
      was put, until it is deleted or becomes an item. */
  lemma {:induction false} QueuedStays(states: seq<State>, events: seq<Event>, i: nat, j: nat, q: Id, question: Queued)
    requires IsRun(states, events) && i < j < |states|
    requires events[i].request == Enqueue(q, question) && q !in states[i].queue
    requires forall k :: i < k < j ==> events[k].request != DeleteQueued(q)
    requires forall k :: i < k < j && events[k].request.CreateItemFromQueue? ==> events[k].request.queued != q
    ensures q in states[j].queue && states[j].queue[q] == question
    decreases j
  {
    hide After;
    var n := j - 1;
    var st, r, ctx := states[n], events[n].request, events[n].ctx;
    assert states[n + 1] == After(st, r, ctx);
    QueueStep(st, r, ctx, q);
    if i < n { QueuedStays(states, events, i, n, q, question); }
  }

  lemma QueueStep(st: State, r: Request, ctx: Context, q: Id)
    ensures
      var queue := After(st, r, ctx).queue;
      && (r.Enqueue? && r.id == q && q !in st.queue ==> q in queue && queue[q] == r.question)
      && (r == DeleteQueued(q) ==> q !in queue)
      && (q in st.queue && r != DeleteQueued(q) && !(r.CreateItemFromQueue? && r.queued == q) ==>
            q in queue && queue[q] == st.queue[q])
  {
    hide MissingFields;
    hide SlugTaken;
    hide Create;
    hide Delete;
    hide ReorderNodes;
    if OnStructure(r) { StructureKeepsRows(st, r, ctx); }
  }

  /** A request to delete a question removes exactly it, if it exists and the right is there for a
      published one; a request to delete a queued question removes exactly that one. */
  lemma RowsDeleted(st: State, ctx: Context, id: Id)
    ensures
      var st', refused := After(st, DeleteItem(id), ctx), IsPublished(st, id) && !ctx.mayPublish;
      st' == st.(items := map i | i in st.items && (i != id || refused) :: st.items[i])
    ensures
      var st' := After(st, DeleteQueued(id), ctx);
      st' == st.(queue := map q | q in st.queue && q != id :: st.queue[q])
  {
  }

  // ---- publication ----

  predicate IsPublished(st: State, id: Id) {
    id in st.items && st.items[id].form.status.Published?
  }

  /** What one request does to the publication time of a question it leaves there. */
  lemma RequestStamps(st: State, r: Request, ctx: Context, id: Id)
    requires id in After(st, r, ctx).items
    ensures
      var was := if id in st.items then st.items[id].publishedAt else None;
      var st' := After(st, r, ctx);
      && (was.Some? ==> st'.items[id].publishedAt == was)
      && (was.None? && !IsPublished(st, id) ==>
            st'.items[id].publishedAt == if IsPublished(st', id) then Some(ctx.now) else None)
  {
    hide MissingFields;
    hide Complete;
    hide SlugTaken;
    hide Create;
    hide Delete;
    hide ReorderNodes;
    if OnStructure(r) { StructureKeepsRows(st, r, ctx); }
  }

  /** The publication time of a question is the time of the first request that left it published,
      and it has none exactly as long as it was never published. Event `i` created it. */
  lemma {:induction false} PublicationTimeIsFirst(states: seq<State>, events: seq<Event>, i: nat, j: nat, id: Id)
    returns (m: nat)
    requires IsRun(states, events) && i < j < |states| && id !in states[i].items
    requires forall k :: i < k <= j ==> id in states[k].items
    ensures states[j].items[id].publishedAt.None? ==> forall k :: i < k <= j ==> !IsPublished(states[k], id)
    ensures states[j].items[id].publishedAt.Some? ==>
      && i <= m < j && states[j].items[id].publishedAt == Some(events[m].ctx.now)
      && IsPublished(states[m + 1], id) && forall k :: i < k <= m ==> !IsPublished(states[k], id)
    decreases j
  {
    hide After;
    var n := j - 1;
    assert states[n + 1] == After(states[n], events[n].request, events[n].ctx);
    RequestStamps(states[n], events[n].request, events[n].ctx, id);
    m := n;
    if i < n {
      var earlier := PublicationTimeIsFirst(states, events, i, n, id);
      if states[n].items[id].publishedAt.Some? { m := earlier; }
    }
  }

  /** Without the publication right no request publishes a question, or changes or removes a
      published one, other than by deleting a node with its questions. */
  lemma PublicationNeedsRight(st: State, r: Request, ctx: Context, id: Id)
    requires !ctx.mayPublish && !r.DeleteNode? && (IsPublished(st, id) || IsPublished(After(st, r, ctx), id))
    ensures id in st.items && id in After(st, r, ctx).items && After(st, r, ctx).items[id] == st.items[id]
  {
    hide MissingFields;
    hide Complete;
    hide SlugTaken;
    hide Create;
    hide ReorderNodes;
    match r
    case CreateNode(kind, id, parent, labels) => StructureAddsNothing(st, r, ctx);
    case Reorder(kind, parent, ordered) => StructureAddsNothing(st, r, ctx);
    case _ =>
  }

  lemma StructureAddsNothing(st: State, r: Request, ctx: Context)
    requires r.CreateNode? || r.Reorder?
    ensures After(st, r, ctx).items == st.items
  {
    hide LabelTaken;
    hide Children;
    hide MatrixAccepts;
    hide SetPriorities;
    hide Delete;
    hide Add;
    hide AddFromQueue;
    hide Update;
    hide Switch;
    hide NextPriority;
    hide ParentExists;
  }
}
