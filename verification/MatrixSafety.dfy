/** What every run of matrix requests keeps, and what deleting a node removes. */
module MatrixSafety {
  import opened Wrappers
  import opened Ordering
  import opened Priorities
  import opened Matrix
  import opened MatrixPublication

  // ---- the structure invariant ----

  /** Every parent exists. */
  predicate ParentsExist(st: State) {
    && (forall s :: s in st.sections ==> st.sections[s].parent in st.sheets)
    && (forall u :: u in st.subsections ==> st.subsections[u].parent in st.sections)
  }

  /** Every question has a subsection, and its own sheet is the one that subsection leads to. */
  predicate ItemsPlaced(st: State) {
    forall i :: i in st.items ==> SheetOf(st, st.items[i].form.subsection) == Some(st.items[i].sheet)
  }

  predicate Linked(st: State) {
    ParentsExist(st) && ItemsPlaced(st)
  }

  // ---- deleting a node ----

  /** The section or subsection `x` of level `at` lies in the subtree of node `id`, following
      parents upwards. */
  predicate InSubtree(st: State, at: Kind, x: Id, kind: Kind, id: Id) {
    match (at, kind)
    case (Sheet, Sheet) => x == id
    case (Section, Section) => x == id
    case (Subsection, Subsection) => x == id
    case (Section, Sheet) => x in st.sections && st.sections[x].parent == id
    case (Subsection, Section) => x in st.subsections && st.subsections[x].parent == id
    case (Subsection, Sheet) => SheetOf(st, x) == Some(id)
    case _ => false
  }

  predicate QuestionInSubtree(st: State, i: Id, kind: Kind, id: Id)
    requires i in st.items
  {
    st.items[i].form.subsection in st.subsections && InSubtree(st, Subsection, st.items[i].form.subsection, kind, id)
  }

  /** The nodes of a level outside the subtree of a node. */
  function LevelWithout(st: State, at: Kind, kind: Kind, id: Id): map<Id, Node> {
    map x | x in Level(st, at) && !InSubtree(st, at, x, kind, id) :: Level(st, at)[x]
  }

  /** `st'` is `st` without the subtree of the node and without its questions. */
  ghost predicate IsWithoutSubtree(st: State, st': State, kind: Kind, id: Id) {
    && (forall at :: Level(st', at) == LevelWithout(st, at, kind, id))
    && st'.items == (map i | i in st.items && !QuestionInSubtree(st, i, kind, id) :: st.items[i])
    && st'.queue == st.queue
  }

  lemma InspectedIsSubtree(st: State, kind: Kind, id: Id, u: Id)
    requires u in st.subsections && (kind.Sheet? ==> ParentsExist(st))
    ensures u in InspectedSubsections(st, kind, id) <==> InSubtree(st, Subsection, u, kind, id)
  {
  }

  lemma QuestionsInspected(st: State, kind: Kind, id: Id)
    requires ParentsExist(st)
    ensures forall i :: i in st.items ==>
      (st.items[i].form.subsection in InspectedSubsections(st, kind, id) <==> QuestionInSubtree(st, i, kind, id))
  {
    forall i | i in st.items
      ensures st.items[i].form.subsection in InspectedSubsections(st, kind, id) <==> QuestionInSubtree(st, i, kind, id)
    {
      if st.items[i].form.subsection in st.subsections {
        InspectedIsSubtree(st, kind, id, st.items[i].form.subsection);
      }
    }
  }

  /** After the questions of the subtree are deleted, RESTRICT refuses the node exactly when
      some remaining question names the deleted sheet. */
  lemma RestrictExactly(st: State, kind: Kind, id: Id)
    requires ParentsExist(st) && id in Level(st, kind)
    ensures SqlDelete(WithoutQuestions(st, InspectedSubsections(st, kind, id)), kind, id) == Err(RestrictViolated)
       <==> kind.Sheet? && exists i :: i in st.items && st.items[i].sheet == id && !QuestionInSubtree(st, i, kind, id)
    ensures
      var result := SqlDelete(WithoutQuestions(st, InspectedSubsections(st, kind, id)), kind, id);
      result.Err? ==> result == Err(RestrictViolated)
  {
    QuestionsInspected(st, kind, id);
    var cleared := WithoutQuestions(st, InspectedSubsections(st, kind, id));
    assert CascadedSubsections(cleared, kind, id) == InspectedSubsections(st, kind, id);
    if kind.Sheet? && exists i :: i in st.items && st.items[i].sheet == id && !QuestionInSubtree(st, i, kind, id) {
      var i :| i in st.items && st.items[i].sheet == id && !QuestionInSubtree(st, i, kind, id);
      assert i in cleared.items;
    }
  }

  /** Every question's subsection and sheet exist. */
  predicate QuestionKeysHold(st: State) {
    forall i :: i in st.items ==> st.items[i].form.subsection in st.subsections && st.items[i].sheet in st.sheets
  }

  /** A sheet delete trips RESTRICT in some state whose foreign keys all hold but in which a
      question names a sheet other than the one its subsection leads to. */
  lemma MisplacedQuestionBlocksDelete()
    ensures exists st: State, id: Id ::
      ParentsExist(st) && QuestionKeysHold(st) && id in st.sheets
        && Delete(st, Sheet, id, true) == Err(RestrictViolated)
  {
    var form := Form("u", "slug", None, Draft, "", "", "", "", "", "");
    var st := State(map["a" := Node(ROOT, ["a"], 1), "b" := Node(ROOT, ["b"], 2)], map["s" := Node("a", ["s", "s"], 1)],
                    map["u" := Node("s", ["u", "u"], 1)], map["q" := Item(form, "b", None, "user")], map[]);
    assert "q" in st.items && st.items["q"].sheet == "b" && !QuestionInSubtree(st, "q", Sheet, "b");
    RestrictExactly(st, Sheet, "b");
    assert ParentsExist(st) && QuestionKeysHold(st);
    assert Delete(st, Sheet, "b", true) == Err(RestrictViolated);
  }

  lemma DeletedLevels(st: State, kind: Kind, id: Id, cleared: State)
    requires ParentsExist(st) && id in Level(st, kind) && cleared == st.(items := cleared.items)
    requires SqlDelete(cleared, kind, id).Ok?
    ensures
      var st' := SqlDelete(cleared, kind, id).value;
      && (forall at :: Level(st', at) == LevelWithout(st, at, kind, id))
      && st'.items == cleared.items && st'.queue == st.queue
  {
    var st' := SqlDelete(cleared, kind, id).value;
    forall at ensures Level(st', at) == LevelWithout(st, at, kind, id) {
      match at
      case Sheet =>
      case Section =>
      case Subsection =>
        forall u | u in st.subsections
          ensures u in CascadedSubsections(cleared, kind, id) <==> InSubtree(st, Subsection, u, kind, id) {}
    }
  }

  /** Deleting a node of a linked state never trips a RESTRICT foreign key. It is refused
      exactly when its subtree holds questions and the flag is not set; otherwise it removes
      the subtree and the subtree's questions and nothing else. */
  lemma DeleteExact(st: State, kind: Kind, id: Id, withQuestions: bool)
    requires Linked(st) && id in Level(st, kind)
    ensures
      var result := Delete(st, kind, id, withQuestions);
      if !withQuestions && exists i :: i in st.items && QuestionInSubtree(st, i, kind, id)
      then result == Err(ContainsQuestions)
      else result.Ok? && IsWithoutSubtree(st, result.value, kind, id)
  {
    hide SqlDelete;
    hide InspectedSubsections;
    hide QuestionInSubtree;
    hide InSubtree;
    hide SheetOf;
    QuestionsInspected(st, kind, id);
    RestrictExactly(st, kind, id);
    SheetQuestionsInSubtree(st, id);
    var subsections := InspectedSubsections(st, kind, id);
    assert HasQuestions(st, subsections) <==> exists i :: i in st.items && QuestionInSubtree(st, i, kind, id);
    DeletedLevels(st, kind, id, WithoutQuestions(st, subsections));
  }

  /** In a linked state the questions that name a sheet are the questions under it. */
  lemma SheetQuestionsInSubtree(st: State, id: Id)
    requires Linked(st)
    ensures forall i :: i in st.items && st.items[i].sheet == id ==> QuestionInSubtree(st, i, Sheet, id)
  {
  }

  // ---- sibling order ----

  /** Siblings have pairwise distinct priorities, at every level and under every parent. */
  ghost predicate Ordered(st: State) {
    forall kind, parent :: Separated(Children(Level(st, kind), parent))
  }

  function ListingOf(st: State, kind: Kind, parent: Id): seq<Id> {
    Listing(Children(Level(st, kind), parent))
  }

  lemma ChildrenCreated(level: map<Id, Node>, id: Id, node: Node, parent: Id)
    requires id !in level
    ensures Children(level[id := node], parent)
         == if parent == node.parent then Children(level, parent)[id := node.priority] else Children(level, parent)
  {
  }

  /** A new node is listed last under its parent; every other listing is unchanged. */
  lemma CreatedLast(st: State, kind: Kind, id: Id, parent: Id, labels: seq<string>, lower: string -> string)
    requires Create(st, kind, id, parent, labels, lower).Ok?
    ensures
      var st' := Create(st, kind, id, parent, labels, lower).value;
      && ListingOf(st', kind, parent) == ListingOf(st, kind, parent) + [id]
      && (forall k, p :: k != kind || p != parent ==> Children(Level(st', k), p) == Children(Level(st, k), p))
      && (Separated(Children(Level(st, kind), parent)) ==> Separated(Children(Level(st', kind), parent)))
  {
    var level := Level(st, kind);
    var node := Node(parent, labels, NextPriority(Children(level, parent)));
    forall p { ChildrenCreated(level, id, node, p); }
    NewIsLast(Children(level, parent), id);
  }

  lemma ChildrenReordered(level: map<Id, Node>, ordered: seq<Id>, parent: Id)
    ensures Children(SetPriorities(level, ordered), parent) == Reordered(Children(level, parent), ordered)
  {
  }

  lemma ReorderLevel(level: map<Id, Node>, parent: Id, ordered: seq<Id>, p: Id)
    requires Permutes(Listing(Children(level, parent)), ordered)
    ensures p != parent ==> Children(SetPriorities(level, ordered), p) == Children(level, p)
    ensures Listing(Children(SetPriorities(level, ordered), parent)) == ordered
    ensures Separated(Children(SetPriorities(level, ordered), parent))
  {
    hide SetPriorities;
    hide Reordered;
    hide Permutes;
    hide Listing;
    ChildrenReordered(level, ordered, parent);
    ReorderedListing(Children(level, parent), ordered);
    if p != parent {
      ChildrenReordered(level, ordered, p);
      ReorderTouchesSiblings(level, parent, ordered);
      ReorderedOthers(Children(level, p), ordered);
    }
  }

  /** A reorder is accepted exactly when the ids are a permutation of the siblings; then the
      listing is the given order and every other listing is unchanged. */
  lemma ReorderExact(st: State, kind: Kind, parent: Id, ordered: seq<Id>)
    requires ParentExists(st, kind, parent)
    ensures
      var result := ReorderNodes(st, kind, parent, ordered);
      if !Permutes(ListingOf(st, kind, parent), ordered) then result == Err(PriorityInvalid)
      else
        && result.Ok? && ListingOf(result.value, kind, parent) == ordered
        && Separated(Children(Level(result.value, kind), parent))
        && (forall k, p ::
            k != kind || p != parent ==> Children(Level(result.value, k), p) == Children(Level(st, k), p))
  {
    hide SetPriorities;
    hide Children;
    hide Permutes;
    hide Listing;
    hide MatrixAccepts;
    hide Separated;
    var level := Level(st, kind);
    ListingIsDistinct(Children(level, parent));
    AcceptsPermutations(ListingOf(st, kind, parent), ordered);
    if Permutes(ListingOf(st, kind, parent), ordered) {
      forall p ensures p != parent ==> Children(SetPriorities(level, ordered), p) == Children(level, p) {
        ReorderLevel(level, parent, ordered, p);
      }
      ReorderLevel(level, parent, ordered, parent);
    }
  }

  lemma ReorderTouchesSiblings(level: map<Id, Node>, parent: Id, ordered: seq<Id>)
    requires Permutes(Listing(Children(level, parent)), ordered)
    ensures forall x :: x in ordered ==> x in level && level[x].parent == parent
  {
    ListingIsListing(Children(level, parent));
    forall x | x in ordered ensures x in Children(level, parent) {
      assert x in multiset(ordered);
      assert x in Listing(Children(level, parent));
    }
  }

  // ---- publication ----

  /** A published question is complete and has its publication time. */
  predicate PublishedReady(st: State) {
    forall i :: i in st.items && st.items[i].form.status.Published? ==>
      Complete(st.items[i].form) && st.items[i].publishedAt.Some?
  }

  // ---- one request keeps everything ----

  ghost predicate Inv(st: State) {
    Linked(st) && Ordered(st) && PublishedReady(st)
  }

  lemma SameLevelsKeep(st: State, st': State)
    requires Inv(st) && st'.sheets == st.sheets && st'.sections == st.sections && st'.subsections == st.subsections
    requires ItemsPlaced(st') && PublishedReady(st')
    ensures Inv(st')
  {
    forall kind, parent ensures Separated(Children(Level(st', kind), parent)) {
      assert Level(st', kind) == Level(st, kind);
      assert Separated(Children(Level(st, kind), parent));
    }
  }

  lemma StoreKeeps(st: State, id: Id, item: Item, now: Time)
    requires Inv(st) && SheetOf(st, item.form.subsection) == Some(item.sheet) && Store(st, id, item, now).Ok?
    ensures Inv(Store(st, id, item, now).value)
  {
    hide MissingFields;
    hide Complete;
    MissingExactly(item.form);
    SameLevelsKeep(st, Store(st, id, item, now).value);
  }

  lemma SwitchKeeps(st: State, id: Id, status: Status, ctx: Context)
    requires Inv(st) && Switch(st, id, status, ctx).Ok?
    ensures Inv(Switch(st, id, status, ctx).value)
  {
    hide MissingFields;
    hide Complete;
    var item := st.items[id];
    MissingExactly(item.form);
    SameText(item.form, item.form.(status := status));
    SameLevelsKeep(st, Switch(st, id, status, ctx).value);
  }

  lemma SameText(f: Form, g: Form)
    requires g == f.(status := g.status)
    ensures Complete(f) <==> Complete(g)
  {
  }

  lemma CreateKeeps(st: State, kind: Kind, id: Id, parent: Id, labels: seq<string>, lower: string -> string)
    requires Inv(st) && Create(st, kind, id, parent, labels, lower).Ok?
    ensures Inv(Create(st, kind, id, parent, labels, lower).value)
  {
    hide MissingFields;
    hide Complete;
    hide Children;
    hide Separated;
    var st' := Create(st, kind, id, parent, labels, lower).value;
    CreatedLast(st, kind, id, parent, labels, lower);
    forall k, p ensures Separated(Children(Level(st', k), p)) {
      assert Separated(Children(Level(st, k), p));
    }
    forall i | i in st.items
      ensures SheetOf(st', st.items[i].form.subsection) == SheetOf(st, st.items[i].form.subsection) {
      CreateKeepsSheet(st, kind, id, parent, labels, lower, st.items[i].form.subsection);
    }
  }

  lemma CreateKeepsSheet(st: State, kind: Kind, id: Id, parent: Id, labels: seq<string>, lower: string -> string, u: Id)
    requires Create(st, kind, id, parent, labels, lower).Ok? && SheetOf(st, u).Some?
    ensures SheetOf(Create(st, kind, id, parent, labels, lower).value, u) == SheetOf(st, u)
  {
    hide Children;
    hide LabelTaken;
    hide NextPriority;
  }

  lemma ReorderKeeps(st: State, kind: Kind, parent: Id, ordered: seq<Id>)
    requires Inv(st) && ReorderNodes(st, kind, parent, ordered).Ok?
    ensures Inv(ReorderNodes(st, kind, parent, ordered).value)
  {
    hide MissingFields;
    hide Complete;
    hide Children;
    hide Separated;
    hide MatrixAccepts;
    hide Permutes;
    hide Listing;
    var st' := ReorderNodes(st, kind, parent, ordered).value;
    ReorderExact(st, kind, parent, ordered);
    forall k, p ensures Separated(Children(Level(st', k), p)) {
      assert Separated(Children(Level(st, k), p));
    }
    forall i | i in st.items
      ensures SheetOf(st', st.items[i].form.subsection) == SheetOf(st, st.items[i].form.subsection) {
      assert SheetOf(st, st.items[i].form.subsection) == Some(st.items[i].sheet);
    }
  }

  lemma FewerChildren(level: map<Id, Node>, level': map<Id, Node>, parent: Id)
    requires Separated(Children(level, parent)) && forall x :: x in level' ==> x in level && level'[x] == level[x]
    ensures Separated(Children(level', parent))
  {
    assert forall x ::
      x in Children(level', parent) ==>
        x in Children(level, parent) && Children(level', parent)[x] == Children(level, parent)[x];
  }

  lemma DeleteKeeps(st: State, kind: Kind, id: Id, withQuestions: bool)
    requires Inv(st) && Delete(st, kind, id, withQuestions).Ok?
    ensures Inv(Delete(st, kind, id, withQuestions).value)
  {
    hide MissingFields;
    hide Complete;
    hide Children;
    hide Separated;
    hide SqlDelete;
    DeleteExact(st, kind, id, withQuestions);
    var st' := Delete(st, kind, id, withQuestions).value;
    forall k, p ensures Separated(Children(Level(st', k), p)) {
      assert Separated(Children(Level(st, k), p));
      FewerChildren(Level(st, k), Level(st', k), p);
    }
    WithoutSubtreeLinked(st, st', kind, id);
  }

  /** A node stays exactly when it is outside the subtree. */
  lemma StaysOutside(st: State, st': State, kind: Kind, id: Id, at: Kind, x: Id)
    requires IsWithoutSubtree(st, st', kind, id)
    ensures x in Level(st', at) <==> x in Level(st, at) && !InSubtree(st, at, x, kind, id)
    ensures x in Level(st', at) ==> Level(st', at)[x] == Level(st, at)[x]
  {
    hide InSubtree;
    hide QuestionInSubtree;
  }

  lemma WithoutSubtreeParents(st: State, st': State, kind: Kind, id: Id)
    requires ParentsExist(st) && IsWithoutSubtree(st, st', kind, id)
    ensures ParentsExist(st')
  {
    hide IsWithoutSubtree;
    forall s | s in st'.sections ensures st'.sections[s].parent in st'.sheets {
      StaysOutside(st, st', kind, id, Section, s);
      StaysOutside(st, st', kind, id, Sheet, st.sections[s].parent);
    }
    forall u | u in st'.subsections ensures st'.subsections[u].parent in st'.sections {
      StaysOutside(st, st', kind, id, Subsection, u);
      StaysOutside(st, st', kind, id, Section, st.subsections[u].parent);
    }
  }

  lemma KeptItems(st: State, st': State, kind: Kind, id: Id, i: Id)
    requires IsWithoutSubtree(st, st', kind, id) && i in st'.items
    ensures i in st.items && st'.items[i] == st.items[i] && !QuestionInSubtree(st, i, kind, id)
  {
    hide QuestionInSubtree;
    hide InSubtree;
  }

  lemma WithoutSubtreeItem(st: State, st': State, kind: Kind, id: Id, i: Id)
    requires Linked(st) && IsWithoutSubtree(st, st', kind, id) && i in st'.items
    ensures SheetOf(st', st'.items[i].form.subsection) == Some(st'.items[i].sheet)
  {
    hide IsWithoutSubtree;
    KeptItems(st, st', kind, id, i);
    var u := st.items[i].form.subsection;
    assert SheetOf(st, u) == Some(st.items[i].sheet);
    StaysOutside(st, st', kind, id, Subsection, u);
    StaysOutside(st, st', kind, id, Section, st.subsections[u].parent);
  }

  lemma WithoutSubtreeLinked(st: State, st': State, kind: Kind, id: Id)
    requires Linked(st) && IsWithoutSubtree(st, st', kind, id)
    ensures Linked(st')
  {
    hide IsWithoutSubtree;
    WithoutSubtreeParents(st, st', kind, id);
    forall i | i in st'.items ensures SheetOf(st', st'.items[i].form.subsection) == Some(st'.items[i].sheet) {
      WithoutSubtreeItem(st, st', kind, id, i);
    }
  }
}
