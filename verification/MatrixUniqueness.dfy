/** The unique constraints of the matrix tables hold in every run: sibling labels differ, even
    after case folding, and no sheet has two questions with the same slug. */
module MatrixUniqueness {
  import opened Wrappers
  import opened Priorities
  import opened Matrix
  import opened MatrixHistory

  predicate LabelsApart(level: map<Id, Node>, lower: string -> string) {
    forall x, y :: x in level && y in level && x != y && level[x].parent == level[y].parent ==>
      !Clashes(level[x].labels, level[y].labels, lower)
  }

  predicate SlugsApart(items: map<Id, Item>) {
    forall i, j :: i in items && j in items && i != j && items[i].sheet == items[j].sheet ==>
      items[i].form.slug != items[j].form.slug
  }

  /** `level'` has no node that `level` has not, up to its priority. */
  ghost predicate NoNewLabels(level: map<Id, Node>, level': map<Id, Node>) {
    forall x :: x in level' ==> x in level && level'[x].parent == level[x].parent && level'[x].labels == level[x].labels
  }

  lemma FewerLabels(level: map<Id, Node>, level': map<Id, Node>, lower: string -> string)
    requires LabelsApart(level, lower) && NoNewLabels(level, level')
    ensures LabelsApart(level', lower)
  {
    hide Clashes;
  }

  lemma ClashesBothWays(a: seq<string>, b: seq<string>, lower: string -> string)
    ensures Clashes(a, b, lower) <==> Clashes(b, a, lower)
  {
  }

  lemma OneMoreLabel(level: map<Id, Node>, id: Id, node: Node, lower: string -> string)
    requires LabelsApart(level, lower) && id !in level && !LabelTaken(level, node.parent, node.labels, lower)
    ensures LabelsApart(level[id := node], lower)
  {
    hide Clashes;
    var grown := level[id := node];
    forall x, y | x in grown && y in grown && x != y && grown[x].parent == grown[y].parent
      ensures !Clashes(grown[x].labels, grown[y].labels, lower)
    {
      ClashesBothWays(grown[x].labels, grown[y].labels, lower);
    }
  }

  lemma SqlDeleteLabels(st: State, kind: Kind, id: Id, at: Kind)
    requires SqlDelete(st, kind, id).Ok?
    ensures NoNewLabels(Level(st, at), Level(SqlDelete(st, kind, id).value, at))
  {
  }

  lemma DeleteLabels(st: State, kind: Kind, id: Id, withQuestions: bool, at: Kind)
    requires Delete(st, kind, id, withQuestions).Ok?
    ensures NoNewLabels(Level(st, at), Level(Delete(st, kind, id, withQuestions).value, at))
  {
    hide SqlDelete;
    hide NoNewLabels;
    var cleared := WithoutQuestions(st, InspectedSubsections(st, kind, id));
    SqlDeleteLabels(cleared, kind, id, at);
    assert Level(cleared, at) == Level(st, at);
  }

  lemma CreateKeepsLabels(st: State, kind: Kind, id: Id, parent: Id, labels: seq<string>, lower: string -> string,
                          at: Kind)
    requires LabelsApart(Level(st, at), lower) && Create(st, kind, id, parent, labels, lower).Ok?
    ensures LabelsApart(Level(Create(st, kind, id, parent, labels, lower).value, at), lower)
  {
    hide LabelsApart;
    hide LabelTaken;
    if kind == at {
      var level := Level(st, at);
      OneMoreLabel(level, id, Node(parent, labels, NextPriority(Children(level, parent))), lower);
    }
  }

  lemma ReorderLabels(st: State, kind: Kind, parent: Id, ordered: seq<Id>, at: Kind)
    requires ReorderNodes(st, kind, parent, ordered).Ok?
    ensures NoNewLabels(Level(st, at), Level(ReorderNodes(st, kind, parent, ordered).value, at))
  {
    hide MatrixAccepts;
  }

  lemma RequestKeepsLabels(st: State, r: Request, ctx: Context, at: Kind)
    requires LabelsApart(Level(st, at), ctx.lower)
    ensures LabelsApart(Level(After(st, r, ctx), at), ctx.lower)
  {
    hide LabelsApart;
    hide NoNewLabels;
    hide Create;
    hide Delete;
    hide ReorderNodes;
    hide Add;
    hide Update;
    hide Switch;
    if !OnStructure(r) {
      ItemRequestKeepsLevels(st, r, ctx);
    } else if Handle(st, r, ctx).Ok? {
      var st' := Handle(st, r, ctx).value;
      match r {
        case CreateNode(kind, id, parent, labels) => CreateKeepsLabels(st, kind, id, parent, labels, ctx.lower, at);
        case DeleteNode(kind, id, withQuestions) =>
          DeleteLabels(st, kind, id, withQuestions, at);
          FewerLabels(Level(st, at), Level(st', at), ctx.lower);
        case Reorder(kind, parent, ordered) =>
          ReorderLabels(st, kind, parent, ordered, at);
          FewerLabels(Level(st, at), Level(st', at), ctx.lower);
      }
    }
  }

  lemma ItemRequestKeepsLevels(st: State, r: Request, ctx: Context)
    requires !OnStructure(r)
    ensures forall at :: Level(After(st, r, ctx), at) == Level(st, at)
  {
    hide MissingFields;
    hide SlugTaken;
  }

  lemma FewerSlugs(items: map<Id, Item>, items': map<Id, Item>)
    requires SlugsApart(items)
    requires forall i ::
      i in items' ==> i in items && items'[i].sheet == items[i].sheet && items'[i].form.slug == items[i].form.slug
    ensures SlugsApart(items')
  {
  }

  lemma StoreKeepsSlugs(st: State, id: Id, item: Item, now: Time)
    requires SlugsApart(st.items)
    ensures Store(st, id, item, now).Ok? ==> SlugsApart(Store(st, id, item, now).value.items)
  {
    hide MissingFields;
  }

  lemma RequestKeepsSlugs(st: State, r: Request, ctx: Context)
    requires SlugsApart(st.items)
    ensures SlugsApart(After(st, r, ctx).items)
  {
    hide Store;
    hide MissingFields;
    hide SlugsApart;
    hide Create;
    hide Delete;
    hide ReorderNodes;
    var st' := After(st, r, ctx);
    if OnStructure(r) {
      StructureKeepsRows(st, r, ctx);
      FewerSlugs(st.items, st'.items);
    } else if r.CreateItem? || r.CreateItemFromQueue? || r.UpdateItem? {
      var sheet := SheetOf(st, r.form.subsection);
      if sheet.Some? {
        var user :=
          if r.CreateItem? then r.user
          else if r.CreateItemFromQueue? && r.queued in st.queue then st.queue[r.queued].suggestedBy
          else "";
        StoreKeepsSlugs(st, r.id, Item(r.form, sheet.value, None, user), ctx.now);
        if r.id in st.items {
          StoreKeepsSlugs(st, r.id, st.items[r.id].(form := r.form, sheet := sheet.value), ctx.now);
        }
      }
    } else {
      FewerSlugs(st.items, st'.items);
    }
  }

  /** In every run with one case folding, siblings never share a label and questions of one
      sheet never share a slug. */
  lemma {:induction false} ConstraintsHold(states: seq<State>, events: seq<Event>, i: nat, lower: string -> string)
    requires IsRun(states, events) && i < |states| && forall k :: 0 <= k < |events| ==> events[k].ctx.lower == lower
    ensures forall at :: LabelsApart(Level(states[i], at), lower)
    ensures SlugsApart(states[i].items)
  {
    if i == 0 {
      assert forall at :: Level(EMPTY, at) == map[];
    } else {
      ConstraintsHold(states, events, i - 1, lower);
      var e := events[i - 1];
      assert states[(i - 1) + 1] == After(states[i - 1], e.request, e.ctx);
      RequestKeepsSlugs(states[i - 1], e.request, e.ctx);
      forall at ensures LabelsApart(Level(states[i], at), lower) {
        RequestKeepsLabels(states[i - 1], e.request, e.ctx, at);
      }
    }
  }
}
