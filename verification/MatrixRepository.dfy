/** The matrix use cases as they run, against `Matrix`. A request that raises leaves the
    tables as they were, as its transaction is rolled back. */
module MatrixRepository {
  import opened Wrappers
  import opened Ordering
  import opened Priorities
  import opened Matrix
  import opened MatrixPublication
  import opened MatrixSafety
  import opened MatrixHistory

  /** The reported error and the tables afterwards are the outcome `result` of the request. */
  predicate Answers(before: State, after: State, result: Result<State>, error: Option<Error>) {
    match result
    case Ok(st) => error.None? && after == st
    case Err(e) => error == Some(e) && after == before
  }

  class Repository {
    var sheets: map<Id, Node>
    var sections: map<Id, Node>
    var subsections: map<Id, Node>
    var items: map<Id, Item>
    var queue: map<Id, Queued>

    function Tables(): State
      reads this
    {
      State(sheets, sections, subsections, items, queue)
    }

    constructor ()
      ensures Tables() == EMPTY && Inv(Tables())
    {
      sheets, sections, subsections, items, queue := map[], map[], map[], map[], map[];
      new;
      assert forall kind :: Level(EMPTY, kind) == map[];
    }

    method InspectStructureDeletion(kind: Kind, id: Id)
      returns (found: bool, subsectionIds: set<Id>, hasQuestions: bool)
      ensures found <==> id in Level(Tables(), kind)
      ensures found ==> subsectionIds == InspectedSubsections(Tables(), kind, id)
      ensures found ==> (hasQuestions <==> HasQuestions(Tables(), subsectionIds))
    {
      found, subsectionIds, hasQuestions := false, {}, false;
      match kind {
        case Sheet =>
          if id !in sheets { return; }
          var sectionIds := set s | s in sections && sections[s].parent == id;
          subsectionIds := set u | u in subsections && subsections[u].parent in sectionIds;
        case Section =>
          if id !in sections { return; }
          subsectionIds := set u | u in subsections && subsections[u].parent == id;
        case Subsection =>
          subsectionIds := set u | u in subsections && u == id;
          assert id in subsections <==> id in subsectionIds;
          if subsectionIds == {} { return; }
      }
      found := true;
      if subsectionIds != {} {
        hasQuestions := exists i :: i in items && items[i].form.subsection in subsectionIds;
      }
    }

    /** DELETE of one structure row with its cascades, or nothing when RESTRICT refuses it. */
    method DeleteRow(kind: Kind, id: Id) returns (error: Option<Error>)
      modifies this`sheets, this`sections, this`subsections
      ensures Answers(old(Tables()), Tables(), SqlDelete(old(Tables()), kind, id), error)
    {
      var goneSections: set<Id>, goneSubsections: set<Id> := {}, {};
      match kind {
        case Sheet => goneSections := set s | s in sections && sections[s].parent == id;
        case Section => goneSections := {id};
        case Subsection =>
      }
      if kind.Subsection? {
        goneSubsections := {id};
      } else {
        goneSubsections := set u | u in subsections && subsections[u].parent in goneSections;
      }
      if exists i ::
        i in items && (items[i].form.subsection in goneSubsections || (kind.Sheet? && items[i].sheet == id)) {
        return Some(RestrictViolated);
      }
      if kind.Sheet? { sheets := sheets - {id}; }
      sections := sections - goneSections;
      subsections := subsections - goneSubsections;
      return None;
    }

    /** A node delete in a reachable state is never refused by a foreign key. */
    method DeleteStructureNode(kind: Kind, id: Id, withQuestions: bool) returns (error: Option<Error>)
      requires Inv(Tables())
      modifies this
      ensures Inv(Tables()) && Answers(old(Tables()), Tables(), Delete(old(Tables()), kind, id, withQuestions), error)
      ensures error != Some(RestrictViolated)
      ensures error.None? ==> IsWithoutSubtree(old(Tables()), Tables(), kind, id)
      ensures !withQuestions ==> items == old(items)
    {
      hide Inv;
      hide SqlDelete;
      hide InspectedSubsections;
      hide IsWithoutSubtree;
      hide HasQuestions;
      hide WithoutQuestions;
      hide Level;
      var st := Tables();
      var found, subsectionIds, hasQuestions := InspectStructureDeletion(kind, id);
      if !found { return Some(StructureNotFound); }
      DeleteAnswered(st, kind, id, withQuestions);
      if hasQuestions && !withQuestions { return Some(ContainsQuestions); }
      var kept := items;
      DeleteQuestions(subsectionIds);
      error := DeleteRow(kind, id);
      if error.Some? { items := kept; }
    }

    method DeleteQuestions(subsectionIds: set<Id>)
      modifies this`items
      ensures Tables() == WithoutQuestions(old(Tables()), subsectionIds)
    {
      if subsectionIds != {} {
        items := map i | i in items && items[i].form.subsection !in subsectionIds :: items[i];
      } else {
        assert items == WithoutQuestions(Tables(), {}).items;
      }
    }

    method CreateNode(kind: Kind, id: Id, parent: Id, labels: seq<string>, lower: string -> string)
      returns (error: Option<Error>)
      requires Inv(Tables())
      modifies this`sheets, this`sections, this`subsections
      ensures Inv(Tables())
      ensures Answers(old(Tables()), Tables(), Create(old(Tables()), kind, id, parent, labels, lower), error)
      ensures error.None? ==> ListingOf(Tables(), kind, parent) == ListingOf(old(Tables()), kind, parent) + [id]
      ensures error.None? <==> MayCreate(old(Tables()), kind, id, parent, labels, lower)
      ensures error.None? ==> HasNode(old(Tables()), Tables(), kind, id, parent, labels)
    {
      var level := match kind case Sheet => sheets case Section => sections case Subsection => subsections;
      var parentExists :=
        match kind
        case Sheet => parent == ROOT
        case Section => parent in sheets
        case Subsection => parent in sections;
      if !parentExists { return Some(StructureNotFound); }
      if LabelTaken(level, parent, labels, lower) { return Some(AlreadyExists); }
      if id in level { return Some(Conflict); }
      CreatedLast(Tables(), kind, id, parent, labels, lower);
      CreateKeeps(Tables(), kind, id, parent, labels, lower);
      level := level[id := Node(parent, labels, NextPriority(Children(level, parent)))];
      match kind {
        case Sheet => sheets := level;
        case Section => sections := level;
        case Subsection => subsections := level;
      }
      return None;
    }

    method UpdatePriorities(kind: Kind, parent: Id, ordered: seq<Id>) returns (error: Option<Error>)
      requires Inv(Tables())
      modifies this`sheets, this`sections, this`subsections
      ensures Inv(Tables())
      ensures Answers(old(Tables()), Tables(), ReorderNodes(old(Tables()), kind, parent, ordered), error)
      ensures error.None? ==> ListingOf(Tables(), kind, parent) == ordered
      ensures error.None?
         <==> ParentExists(old(Tables()), kind, parent) && Permutes(ListingOf(old(Tables()), kind, parent), ordered)
      ensures SameNodes(old(Tables()), Tables())
    {
      hide Inv;
      hide Children;
      hide Listing;
      hide MatrixAccepts;
      hide Permutes;
      hide Separated;
      hide SameNodes;
      var st := Tables();
      NodesStay(st, kind, parent, ordered);
      var level := match kind case Sheet => sheets case Section => sections case Subsection => subsections;
      var parentExists :=
        match kind
        case Sheet => parent == ROOT
        case Section => parent in sheets
        case Subsection => parent in sections;
      if !parentExists { return Some(StructureNotFound); }
      ReorderExact(st, kind, parent, ordered);
      if !MatrixAccepts(Listing(Children(level, parent)), ordered) { return Some(PriorityInvalid); }
      ReorderKeeps(st, kind, parent, ordered);
      if ordered != [] {
        var byId := PriorityById(ordered);
        level := map x | x in level :: if x in byId then level[x].(priority := byId[x]) else level[x];
      } else {
        assert level == SetPriorities(level, []);
      }
      assert level == SetPriorities(Level(st, kind), ordered);
      match kind {
        case Sheet => sheets := level;
        case Section => sections := level;
        case Subsection => subsections := level;
      }
      return None;
    }

    /** The lookups before a write: the attached resources, then the sheet of the subsection. */
    method Prepare(form: Form, resourcesExist: bool) returns (r: Result<Id>)
      ensures r == Prepared(Tables(), form, resourcesExist)
    {
      if !resourcesExist { return Err(ResourceNotFound); }
      if form.subsection !in subsections || subsections[form.subsection].parent !in sections {
        return Err(StructureNotFound);
      }
      return Ok(sections[subsections[form.subsection].parent].parent);
    }

    /** Write one question row: publication needs all fields, the slug must be free on its
        sheet, and the first publication stamps the time. */
    method Write(id: Id, item: Item, isNew: bool, now: Time) returns (error: Option<Error>)
      modifies this`items
      ensures
        var stored := Store(old(Tables()), id, item, now);
        var result := if isNew && stored.Ok? && id in old(items) then Err(Conflict) else stored;
        Answers(old(Tables()), Tables(), result, error)
      ensures error == Some(NotPublicReady) <==> item.form.status.Published? && !Complete(item.form)
      ensures error.None? <==>
        (&& (item.form.status.Published? ==> Complete(item.form)) && !(isNew && id in old(items))
         && SlugFree(old(Tables()), id, item.sheet, item.form.slug))
    {
      hide MissingFields;
      hide Complete;
      MissingExactly(item.form);
      if item.form.status.Published? && MissingFields(item.form) != {} { return Some(NotPublicReady); }
      if exists i :: i in items && i != id && items[i].sheet == item.sheet && items[i].form.slug == item.form.slug {
        return Some(Conflict);
      }
      if isNew && id in items { return Some(Conflict); }
      var row := item;
      if row.form.status.Published? && row.publishedAt.None? { row := row.(publishedAt := Some(now)); }
      items := items[id := row];
      return None;
    }

    /** A new question sits on the sheet of its subsection, keeps who suggested it, and is
        published only complete and with its time. */
    method CreateItem(id: Id, form: Form, user: string, resourcesExist: bool, ctx: Context)
      returns (error: Option<Error>)
      requires Inv(Tables())
      modifies this`items
      ensures Inv(Tables())
      ensures Answers(old(Tables()), Tables(),
                      Handle(old(Tables()), Request.CreateItem(id, form, user, resourcesExist), ctx), error)
      ensures error.None? ==> id !in old(items) && items == old(items)[id := items[id]]
      ensures error.None? ==> WrittenAs(Tables(), id, form, user, None, ctx.now)
      ensures error.None?
         <==> (&& (form.status.Published? ==> ctx.mayPublish) && resourcesExist
               && MayHold(old(Tables()), id, form) && id !in old(items))
      ensures error == Some(Forbidden) <==> form.status.Published? && !ctx.mayPublish
    {
      hide Inv;
      HandleKeeps(Tables(), Request.CreateItem(id, form, user, resourcesExist), ctx);
      if form.status.Published? && !ctx.mayPublish { return Some(Forbidden); }
      var sheet := Prepare(form, resourcesExist);
      if sheet.Err? { return Some(sheet.error); }
      error := Write(id, Item(form, sheet.value, None, user), true, ctx.now);
    }

    /** The new question and the removal from the queue are one step, or neither happens; the
        question keeps the suggester of the queued one. */
    method CreateItemFromQueue(id: Id, queued: Id, form: Form, resourcesExist: bool, ctx: Context)
      returns (error: Option<Error>)
      requires Inv(Tables())
      modifies this`items, this`queue
      ensures Inv(Tables())
      ensures Answers(old(Tables()), Tables(),
                      Handle(old(Tables()), Request.CreateItemFromQueue(id, queued, form, resourcesExist), ctx), error)
      ensures error.None? ==> queued in old(queue) && queue == old(queue) - {queued}
      ensures error.None? ==> id !in old(items) && items == old(items)[id := items[id]]
      ensures error.None? ==> WrittenAs(Tables(), id, form, old(queue)[queued].suggestedBy, None, ctx.now)
      ensures error.None?
         <==> (&& (form.status.Published? ==> ctx.mayPublish) && queued in old(queue) && resourcesExist
               && MayHold(old(Tables()), id, form) && id !in old(items))
      ensures error.Some? ==> queue == old(queue) && items == old(items)
    {
      hide Inv;
      HandleKeeps(Tables(), Request.CreateItemFromQueue(id, queued, form, resourcesExist), ctx);
      if form.status.Published? && !ctx.mayPublish { return Some(Forbidden); }
      if queued !in queue { return Some(QueuedNotFound); }
      var sheet := Prepare(form, resourcesExist);
      if sheet.Err? { return Some(sheet.error); }
      error := Write(id, Item(form, sheet.value, None, queue[queued].suggestedBy), true, ctx.now);
      if error.None? { queue := queue - {queued}; }
    }

    /** An update replaces the form and the sheet; suggester and publication time stay. */
    method UpdateItem(id: Id, form: Form, resourcesExist: bool, ctx: Context) returns (error: Option<Error>)
      requires Inv(Tables())
      modifies this`items
      ensures Inv(Tables())
      ensures Answers(old(Tables()), Tables(),
                      Handle(old(Tables()), Request.UpdateItem(id, form, resourcesExist), ctx), error)
      ensures error.None? ==> id in old(items) && items == old(items)[id := items[id]]
      ensures error.None? ==>
        WrittenAs(Tables(), id, form, old(items)[id].suggestedBy, old(items)[id].publishedAt, ctx.now)
      ensures error.None?
         <==> (&& resourcesExist && id in old(items) && MayHold(old(Tables()), id, form)
               && (form.status.Published? || old(items)[id].form.status.Published? ==> ctx.mayPublish))
    {
      hide Inv;
      HandleKeeps(Tables(), Request.UpdateItem(id, form, resourcesExist), ctx);
      var sheet := Prepare(form, resourcesExist);
      if sheet.Err? { return Some(sheet.error); }
      if id !in items { return Some(ItemNotFound); }
      var existing := items[id];
      if !ctx.mayPublish && (existing.form.status.Published? || form.status.Published?) { return Some(Forbidden); }
      error := Write(id, Item(form, sheet.value, existing.publishedAt, existing.suggestedBy), false, ctx.now);
    }

    /** Only the status changes, and the publication time when it is the first one. */
    method SwitchItemPublishStatus(id: Id, status: Status, ctx: Context) returns (error: Option<Error>)
      requires Inv(Tables())
      modifies this`items
      ensures Inv(Tables())
      ensures Answers(old(Tables()), Tables(), Handle(old(Tables()), SwitchStatus(id, status), ctx), error)
      ensures error.None? ==> id in old(items) && items == old(items)[id := items[id]]
      ensures error.None? ==>
        var was := old(items)[id];
        WrittenAs(Tables(), id, was.form.(status := status), was.suggestedBy, was.publishedAt, ctx.now)
      ensures error.None?
         <==> ctx.mayPublish && id in old(items) && (status.Published? ==> Complete(old(items)[id].form))
    {
      hide Inv;
      HandleKeeps(Tables(), SwitchStatus(id, status), ctx);
      if !ctx.mayPublish { return Some(Forbidden); }
      if id !in items { return Some(ItemNotFound); }
      var item := items[id];
      MissingExactly(item.form);
      SameText(item.form, item.form.(status := status));
      InvPlaces(Tables(), id);
      if status.Published? && MissingFields(item.form) != {} { return Some(NotPublicReady); }
      item := item.(form := item.form.(status := status));
      if status.Published? && item.publishedAt.None? { item := item.(publishedAt := Some(ctx.now)); }
      items := items[id := item];
      return None;
    }
  }

  /** The row of `id` holds the form, the suggester, and the sheet its subsection leads to; it is
      published only complete, and its time is the old one or, for the first publication, `now`. */
  predicate WrittenAs(st: State, id: Id, form: Form, user: string, was: Option<Time>, now: Time) {
    && id in st.items && st.items[id].form == form && st.items[id].suggestedBy == user
    && SheetOf(st, form.subsection) == Some(st.items[id].sheet)
    && (form.status.Published? ==> Complete(form))
    && st.items[id].publishedAt == if was.Some? then was else if form.status.Published? then Some(now) else None
  }

  predicate SlugFree(st: State, id: Id, sheet: Id, slug: string) {
    forall i :: i in st.items && i != id && st.items[i].sheet == sheet ==> st.items[i].form.slug != slug
  }

  /** The tables can hold the form under `id`: its subsection leads to a sheet on which the slug is
      free, and it is published only complete. */
  predicate MayHold(st: State, id: Id, form: Form) {
    && form.subsection in st.subsections && st.subsections[form.subsection].parent in st.sections
    && SlugFree(st, id, st.sections[st.subsections[form.subsection].parent].parent, form.slug)
    && (form.status.Published? ==> Complete(form))
  }

  /** A node can be created: its parent exists, its id is new, and no sibling has one of its labels
      after case folding. */
  predicate MayCreate(st: State, kind: Kind, id: Id, parent: Id, labels: seq<string>, lower: string -> string) {
    && id !in Level(st, kind)
    && (match kind
        case Sheet => parent == ROOT
        case Section => parent in st.sheets
        case Subsection => parent in st.sections)
    && forall x :: x in Level(st, kind) && Level(st, kind)[x].parent == parent ==>
         LabelsDiffer(Level(st, kind)[x].labels, labels, lower)
  }

  predicate LabelsDiffer(a: seq<string>, b: seq<string>, lower: string -> string) {
    forall i :: 0 <= i < |a| && i < |b| ==> lower(a[i]) != lower(b[i])
  }

  /** `after` is `before` with the new node, under its parent and with its labels. */
  ghost predicate HasNode(before: State, after: State, kind: Kind, id: Id, parent: Id, labels: seq<string>) {
    && after.items == before.items && after.queue == before.queue
    && (forall at :: at != kind ==> Level(after, at) == Level(before, at))
    && id in Level(after, kind) && Level(after, kind)[id].parent == parent && Level(after, kind)[id].labels == labels
    && Level(after, kind) == Level(before, kind)[id := Level(after, kind)[id]]
  }

  /** The two states differ in the priorities of nodes only. */
  ghost predicate SameNodes(before: State, after: State) {
    && after.items == before.items && after.queue == before.queue
    && forall at :: Level(after, at).Keys == Level(before, at).Keys
         && forall x :: x in Level(before, at) ==>
              Level(after, at)[x] == Level(before, at)[x].(priority := Level(after, at)[x].priority)
  }

  lemma LevelStays(level: map<Id, Node>, ordered: seq<Id>)
    ensures SetPriorities(level, ordered).Keys == level.Keys
    ensures forall x :: x in level ==>
      SetPriorities(level, ordered)[x] == level[x].(priority := SetPriorities(level, ordered)[x].priority)
  {
    hide PriorityById;
  }

  lemma NodesStay(st: State, kind: Kind, parent: Id, ordered: seq<Id>)
    ensures SameNodes(st, st)
    ensures
      var result := ReorderNodes(st, kind, parent, ordered);
      result.Ok? ==> SameNodes(st, result.value)
  {
    hide MatrixAccepts;
    hide Listing;
    hide SetPriorities;
    hide Children;
    hide ParentExists;
    LevelStays(Level(st, kind), ordered);
  }

  lemma InvPlaces(st: State, id: Id)
    requires Inv(st) && id in st.items
    ensures SheetOf(st, st.items[id].form.subsection) == Some(st.items[id].sheet)
  {
  }

  lemma DeleteAnswered(st: State, kind: Kind, id: Id, withQuestions: bool)
    requires Inv(st) && id in Level(st, kind)
    ensures
      var result := Delete(st, kind, id, withQuestions);
      match result
      case Ok(st') => Inv(st') && IsWithoutSubtree(st, st', kind, id) && (!withQuestions ==> st'.items == st.items)
      case Err(e) => e == ContainsQuestions
  {
    hide Delete;
    InvLinks(st);
    DeleteExact(st, kind, id, withQuestions);
    if Delete(st, kind, id, withQuestions).Ok? { DeleteKeeps(st, kind, id, withQuestions); }
  }
}
