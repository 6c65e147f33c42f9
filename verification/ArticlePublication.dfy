/** Publication of articles: the form, the update and the status switch set the same time. */
module ArticlePublication {
  import opened Wrappers

  type Id = string
  type Time = int

  datatype Status = Draft | Published

  datatype Article = Article(status: Status, author: string, createdAt: Time, publishedAt: Option<Time>)

  datatype Request =
    | Create(id: Id, status: Status, author: string)
    | Update(id: Id, status: Status)
    | Switch(id: Id, status: Status)
    | Delete(id: Id)

  datatype Event = Event(request: Request, mayPublish: bool, now: Time)

  /** ArticleCreateParams.to_article. */
  function Created(status: Status, author: string, now: Time): Article {
    Article(status, author, now, if status.Published? then Some(now) else None)
  }

  /** ArticleUpdateParams.to_article. */
  function Updated(existing: Article, status: Status, now: Time): Article {
    var publishedAt := if existing.publishedAt.None? && status.Published? then Some(now) else existing.publishedAt;
    Article(status, existing.author, existing.createdAt, publishedAt)
  }

  /** update_article_publish_status on the stored row. */
  function Switched(row: Article, status: Status, now: Time): Article {
    var switched := row.(status := status);
    if status.Published? && switched.publishedAt.None? then switched.(publishedAt := Some(now)) else switched
  }

  predicate Forbids(mayPublish: bool, statuses: set<Status>) {
    !mayPublish && Published in statuses
  }

  /** One request; a refused one changes nothing. */
  function After(articles: map<Id, Article>, e: Event): map<Id, Article> {
    match e.request
    case Create(id, status, author) =>
      if Forbids(e.mayPublish, {status}) || id in articles then articles
      else articles[id := Created(status, author, e.now)]
    case Update(id, status) =>
      if id !in articles || Forbids(e.mayPublish, {articles[id].status, status}) then articles
      else articles[id := Updated(articles[id], status, e.now)]
    case Switch(id, status) =>
      if Forbids(e.mayPublish, {Published}) || id !in articles then articles
      else articles[id := Switched(articles[id], status, e.now)]
    case Delete(id) =>
      if id !in articles || Forbids(e.mayPublish, {articles[id].status}) then articles else articles - {id}
  }

  ghost predicate IsRun(states: seq<map<Id, Article>>, events: seq<Event>) {
    && |states| == |events| + 1 && states[0] == map[]
    && forall i :: 0 <= i < |events| ==> states[i + 1] == After(states[i], events[i])
  }

  /** Every published article of every reachable state has its publication time. */
  lemma {:induction false} PublishedHaveTime(states: seq<map<Id, Article>>, events: seq<Event>, i: nat)
    requires IsRun(states, events) && i < |states|
    ensures forall id :: id in states[i] && states[i][id].status.Published? ==> states[i][id].publishedAt.Some?
  {
    if i > 0 {
      PublishedHaveTime(states, events, i - 1);
      assert states[(i - 1) + 1] == After(states[i - 1], events[i - 1]);
    }
  }

  /** While an article lives, its author and creation time never change, nor does its
      publication time once it is set. */
  lemma {:induction false} TimesNeverChange(states: seq<map<Id, Article>>, events: seq<Event>, i: nat, j: nat, id: Id)
    requires IsRun(states, events) && i <= j < |states| && forall k :: i <= k <= j ==> id in states[k]
    ensures states[j][id].author == states[i][id].author && states[j][id].createdAt == states[i][id].createdAt
    ensures states[i][id].publishedAt.Some? ==> states[j][id].publishedAt == states[i][id].publishedAt
    decreases j - i
  {
    if i < j {
      TimesNeverChange(states, events, i, j - 1, id);
      assert states[(j - 1) + 1] == After(states[j - 1], events[j - 1]);
    }
  }

  predicate IsPublished(articles: map<Id, Article>, id: Id) {
    id in articles && articles[id].status.Published?
  }

  /** An accepted request leaves the status it asks for, at the first publication with its time,
      and every other article as it is. */
  lemma RequestedStatus(articles: map<Id, Article>, e: Event)
    requires !e.request.Delete? && After(articles, e) != articles
    ensures
      var id, after := e.request.id, After(articles, e);
      && id in after && after[id].status == e.request.status && after == articles[id := after[id]]
      && (e.request.Create? ==> id !in articles && after[id].author == e.request.author && after[id].createdAt == e.now)
      && after[id].publishedAt == if id in articles && articles[id].publishedAt.Some? then articles[id].publishedAt
                                  else if e.request.status.Published? then Some(e.now) else None
  {
  }

  /** Without the publication right no request publishes an article, or changes or deletes a
      published one; with it every request on an existing article is served. */
  lemma PublicationNeedsRight(articles: map<Id, Article>, e: Event, id: Id)
    ensures !e.mayPublish && (IsPublished(articles, id) || IsPublished(After(articles, e), id)) ==>
      id in articles && id in After(articles, e) && After(articles, e)[id] == articles[id]
    ensures e.mayPublish && (e.request.Create? <==> e.request.id !in articles) ==>
      if e.request.Delete? then After(articles, e) == articles - {e.request.id}
      else IsPublished(After(articles, e), e.request.id) <==> e.request.status.Published?
  {
  }

  /** The publication time of an article is the time of the first request that left it published,
      and it has none exactly as long as it was never published. Event `i` created it. */
  lemma {:induction false} PublicationTimeIsFirst(states: seq<map<Id, Article>>, events: seq<Event>,
                                                  i: nat, j: nat, id: Id)
    returns (m: nat)
    requires IsRun(states, events) && i < j < |states| && id !in states[i]
    requires forall k :: i < k <= j ==> id in states[k]
    ensures states[j][id].publishedAt.None? ==> forall k :: i < k <= j ==> !IsPublished(states[k], id)
    ensures states[j][id].publishedAt.Some? ==>
      && i <= m < j && states[j][id].publishedAt == Some(events[m].now)
      && IsPublished(states[m + 1], id) && forall k :: i < k <= m ==> !IsPublished(states[k], id)
    decreases j
  {
    var n := j - 1;
    assert states[n + 1] == After(states[n], events[n]);
    m := n;
    if i < n {
      var earlier := PublicationTimeIsFirst(states, events, i, n, id);
      if states[n][id].publishedAt.Some? { m := earlier; }
    }
  }
}
