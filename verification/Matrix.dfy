/** The competency matrix: sheets, sections, subsections and questions, the queue, and what
    each request does to them. Requests run one at a time; a refused request changes nothing. */
module Matrix {
  import opened Wrappers
  import opened Ordering
  import opened Priorities

  type Time = int

  datatype Kind = Sheet | Section | Subsection

  /** A structure row. `labels` are the texts that must differ between siblings: the key of a
      sheet, the two names of a section or subsection. Sheets have the parent `ROOT`. */
  datatype Node = Node(parent: Id, labels: seq<string>, priority: int)

  datatype Grade = Junior | JuniorPlus | Middle | MiddlePlus | Senior
  datatype Status = Draft | Published

  /** What a form says about a question. */
  datatype Form = Form(
    subsection: Id, slug: string, grade: Option<Grade>, status: Status,
    questionRu: string, questionEn: string, answerRu: string, answerEn: string,
    explanationRu: string, explanationEn: string
  )

  /** `sheet` repeats the sheet that the subsection leads to. */
  datatype Item = Item(form: Form, sheet: Id, publishedAt: Option<Time>, suggestedBy: string)

  datatype Queued = Queued(question: string, suggestedBy: string)

  datatype State = State(
    sheets: map<Id, Node>, sections: map<Id, Node>, subsections: map<Id, Node>,
    items: map<Id, Item>, queue: map<Id, Queued>
  )

  datatype Error =
    | AlreadyExists | StructureNotFound | ContainsQuestions | RestrictViolated | PriorityInvalid
    | Forbidden | ItemNotFound | ResourceNotFound | NotPublicReady | Conflict | QueuedNotFound

  datatype Result<T> = Ok(value: T) | Err(error: Error)

  datatype Request =
    | CreateNode(kind: Kind, id: Id, parent: Id, labels: seq<string>)
    | DeleteNode(kind: Kind, id: Id, withQuestions: bool)
    | Reorder(kind: Kind, parent: Id, ordered: seq<Id>)
    | CreateItem(id: Id, form: Form, user: string, resourcesExist: bool)
    | CreateItemFromQueue(id: Id, queued: Id, form: Form, resourcesExist: bool)
    | UpdateItem(id: Id, form: Form, resourcesExist: bool)
    | DeleteItem(id: Id)
    | SwitchStatus(id: Id, status: Status)
    | Enqueue(id: Id, question: Queued)
    | DeleteQueued(id: Id)

  /** Who asks and when; `lower` is the case folding of the label comparison. */
  datatype Context = Context(mayPublish: bool, now: Time, lower: string -> string)

  const ROOT: Id := ""
  const EMPTY := State(map[], map[], map[], map[], map[])

  function Level(st: State, kind: Kind): map<Id, Node> {
    match kind
    case Sheet => st.sheets
    case Section => st.sections
    case Subsection => st.subsections
  }

  function WithLevel(st: State, kind: Kind, level: map<Id, Node>): State {
    match kind
    case Sheet => st.(sheets := level)
    case Section => st.(sections := level)
    case Subsection => st.(subsections := level)
  }

  predicate ParentExists(st: State, kind: Kind, parent: Id) {
    match kind
    case Sheet => parent == ROOT
    case Section => parent in st.sheets
    case Subsection => parent in st.sections
  }

  // ---- structure ----

  /** The siblings under one parent, with their priorities. */
  function Children(level: map<Id, Node>, parent: Id): map<Id, int> {
    map x | x in level && level[x].parent == parent :: level[x].priority
  }

  predicate Clashes(a: seq<string>, b: seq<string>, lower: string -> string) {
    exists i :: 0 <= i < |a| && i < |b| && lower(a[i]) == lower(b[i])
  }

  predicate LabelTaken(level: map<Id, Node>, parent: Id, labels: seq<string>, lower: string -> string) {
    exists x :: x in level && level[x].parent == parent && Clashes(level[x].labels, labels, lower)
  }

  function Create(st: State, kind: Kind, id: Id, parent: Id, labels: seq<string>,
                  lower: string -> string): Result<State> {
    var level := Level(st, kind);
    if !ParentExists(st, kind, parent) then Err(StructureNotFound)
    else if LabelTaken(level, parent, labels, lower) then Err(AlreadyExists)
    else if id in level then Err(Conflict)
    else Ok(WithLevel(st, kind, level[id := Node(parent, labels, NextPriority(Children(level, parent)))]))
  }

  function SetPriorities(level: map<Id, Node>, ordered: seq<Id>): map<Id, Node> {
    map x | x in level ::
      if x in PriorityById(ordered) then level[x].(priority := PriorityById(ordered)[x]) else level[x]
  }

  function ReorderNodes(st: State, kind: Kind, parent: Id, ordered: seq<Id>): Result<State> {
    if !ParentExists(st, kind, parent) then Err(StructureNotFound)
    else if !MatrixAccepts(Listing(Children(Level(st, kind), parent)), ordered) then Err(PriorityInvalid)
    else Ok(WithLevel(st, kind, SetPriorities(Level(st, kind), ordered)))
  }

  // ---- deleting a node ----

  /** inspect_structure_deletion: the subsections of the node, read level by level. */
  function InspectedSubsections(st: State, kind: Kind, id: Id): set<Id> {
    match kind
    case Sheet =>
      var sections := set s | s in st.sections && st.sections[s].parent == id;
      set u | u in st.subsections && st.subsections[u].parent in sections
    case Section => set u | u in st.subsections && st.subsections[u].parent == id
    case Subsection => set u | u in st.subsections && u == id
  }

  predicate HasQuestions(st: State, subsections: set<Id>) {
    exists i :: i in st.items && st.items[i].form.subsection in subsections
  }

  function WithoutQuestions(st: State, subsections: set<Id>): State {
    st.(items := map i | i in st.items && st.items[i].form.subsection !in subsections :: st.items[i])
  }

  function CascadedSections(st: State, kind: Kind, id: Id): set<Id> {
    match kind
    case Sheet => set s | s in st.sections && st.sections[s].parent == id
    case Section => {id}
    case Subsection => {}
  }

  function CascadedSubsections(st: State, kind: Kind, id: Id): set<Id> {
    if kind.Subsection? then {id}
    else set u | u in st.subsections && st.subsections[u].parent in CascadedSections(st, kind, id)
  }

  /** DELETE FROM the node's table: ON DELETE CASCADE below it, ON DELETE RESTRICT from the
      questions to their subsection and to their sheet. */
  function SqlDelete(st: State, kind: Kind, id: Id): Result<State> {
    var sections, subsections := CascadedSections(st, kind, id), CascadedSubsections(st, kind, id);
    if exists i ::
      i in st.items && (st.items[i].form.subsection in subsections || (kind.Sheet? && st.items[i].sheet == id))
    then Err(RestrictViolated)
    else Ok(st.(sheets := if kind.Sheet? then st.sheets - {id} else st.sheets,
                sections := st.sections - sections, subsections := st.subsections - subsections))
  }

  function Delete(st: State, kind: Kind, id: Id, withQuestions: bool): Result<State> {
    var subsections := InspectedSubsections(st, kind, id);
    if id !in Level(st, kind) then Err(StructureNotFound)
    else if HasQuestions(st, subsections) && !withQuestions then Err(ContainsQuestions)
    else SqlDelete(WithoutQuestions(st, subsections), kind, id)
  }

  // ---- questions ----

  /** Python's str.isspace for one character. */
  predicate IsSpace(c: char) {
    || '\t' <= c <= '\r' || '\U{1C}' <= c <= ' ' || c == '\U{85}' || c == '\U{A0}' || c == '\U{1680}'
    || '\U{2000}' <= c <= '\U{200A}' || c == '\U{2028}' || c == '\U{2029}' || c == '\U{202F}' || c == '\U{205F}'
    || c == '\U{3000}'
  }

  /** str.strip. */
  function Strip(s: string): string
    decreases |s|
  {
    if s == "" then ""
    else if IsSpace(s[0]) then Strip(s[1..])
    else if IsSpace(s[|s| - 1]) then Strip(s[..|s| - 1])
    else s
  }

  datatype Field = Slug | GradeField | QuestionRu | QuestionEn | AnswerRu | AnswerEn | ExplanationRu | ExplanationEn

  function MissingIf(missing: bool, field: Field): set<Field> {
    if missing then {field} else {}
  }

  function MissingFields(f: Form): set<Field> {
    MissingIf(Strip(f.slug) == "", Slug) + MissingIf(f.grade.None?, GradeField)
    + MissingIf(Strip(f.questionRu) == "", QuestionRu) + MissingIf(Strip(f.questionEn) == "", QuestionEn)
    + MissingIf(Strip(f.answerRu) == "", AnswerRu) + MissingIf(Strip(f.answerEn) == "", AnswerEn)
    + MissingIf(Strip(f.explanationRu) == "", ExplanationRu) + MissingIf(Strip(f.explanationEn) == "", ExplanationEn)
  }

  /** to_item_structure: the sheet that a subsection leads to. */
  function SheetOf(st: State, subsection: Id): Option<Id> {
    if subsection in st.subsections && st.subsections[subsection].parent in st.sections
    then Some(st.sections[st.subsections[subsection].parent].parent)
    else None
  }

  /** The constraint on (sheet, slug), for a row stored under `id`. */
  predicate SlugTaken(st: State, id: Id, sheet: Id, slug: string) {
    exists i :: i in st.items && i != id && st.items[i].sheet == sheet && st.items[i].form.slug == slug
  }

  /** _ensure_first_published_at. */
  function Stamped(item: Item, now: Time): Item {
    if item.form.status.Published? && item.publishedAt.None? then item.(publishedAt := Some(now)) else item
  }

  predicate Forbids(ctx: Context, statuses: set<Status>) {
    !ctx.mayPublish && Published in statuses
  }

  /** The checks of create and update between the publication right and the write. */
  function Prepared(st: State, form: Form, resourcesExist: bool): Result<Id> {
    var sheet := SheetOf(st, form.subsection);
    if !resourcesExist then Err(ResourceNotFound)
    else if sheet.None? then Err(StructureNotFound)
    else Ok(sheet.value)
  }

  function Store(st: State, id: Id, item: Item, now: Time): Result<State> {
    if item.form.status.Published? && MissingFields(item.form) != {} then Err(NotPublicReady)
    else if SlugTaken(st, id, item.sheet, item.form.slug) then Err(Conflict)
    else Ok(st.(items := st.items[id := Stamped(item, now)]))
  }

  function Add(st: State, id: Id, form: Form, user: string, resourcesExist: bool, ctx: Context): Result<State> {
    var sheet := Prepared(st, form, resourcesExist);
    if sheet.Err? then Err(sheet.error)
    else
      var stored := Store(st, id, Item(form, sheet.value, None, user), ctx.now);
      if stored.Ok? && id in st.items then Err(Conflict) else stored
  }

  function Update(st: State, id: Id, form: Form, resourcesExist: bool, ctx: Context): Result<State> {
    var sheet := Prepared(st, form, resourcesExist);
    if sheet.Err? then Err(sheet.error)
    else if id !in st.items then Err(ItemNotFound)
    else if Forbids(ctx, {st.items[id].form.status, form.status}) then Err(Forbidden)
    else Store(st, id, st.items[id].(form := form, sheet := sheet.value), ctx.now)
  }

  function Switch(st: State, id: Id, status: Status, ctx: Context): Result<State> {
    if Forbids(ctx, {Published}) then Err(Forbidden)
    else if id !in st.items then Err(ItemNotFound)
    else
      var item := st.items[id];
      if status.Published? && MissingFields(item.form) != {} then Err(NotPublicReady)
      else Ok(st.(items := st.items[id := Stamped(item.(form := item.form.(status := status)), ctx.now)]))
  }

  // ---- one request ----

  function AddFromQueue(st: State, id: Id, queued: Id, form: Form, resourcesExist: bool, ctx: Context): Result<State> {
    if queued !in st.queue then Err(QueuedNotFound)
    else
      var added := Add(st, id, form, st.queue[queued].suggestedBy, resourcesExist, ctx);
      if added.Err? then added else Ok(added.value.(queue := added.value.queue - {queued}))
  }

  function Handle(st: State, r: Request, ctx: Context): Result<State> {
    match r
    case CreateNode(kind, id, parent, labels) => Create(st, kind, id, parent, labels, ctx.lower)
    case DeleteNode(kind, id, withQuestions) => Delete(st, kind, id, withQuestions)
    case Reorder(kind, parent, ordered) => ReorderNodes(st, kind, parent, ordered)
    case CreateItem(id, form, user, resources) =>
      if Forbids(ctx, {form.status}) then Err(Forbidden) else Add(st, id, form, user, resources, ctx)
    case CreateItemFromQueue(id, queued, form, resources) =>
      if Forbids(ctx, {form.status}) then Err(Forbidden) else AddFromQueue(st, id, queued, form, resources, ctx)
    case UpdateItem(id, form, resources) => Update(st, id, form, resources, ctx)
    case DeleteItem(id) =>
      if id !in st.items then Err(ItemNotFound)
      else if Forbids(ctx, {st.items[id].form.status}) then Err(Forbidden)
      else Ok(st.(items := st.items - {id}))
    case SwitchStatus(id, status) => Switch(st, id, status, ctx)
    case Enqueue(id, question) =>
      if id in st.queue then Err(Conflict) else Ok(st.(queue := st.queue[id := question]))
    case DeleteQueued(id) =>
      if id !in st.queue then Err(QueuedNotFound) else Ok(st.(queue := st.queue - {id}))
  }

  function After(st: State, r: Request, ctx: Context): State {
    var result := Handle(st, r, ctx);
    if result.Ok? then result.value else st
  }
}
