/** The five routes as functions from the current collection to a reply and
    the next collection. Each handler behind `/repositories/:id` runs the id
    gate first, as the path-level middleware does, so a failed gate answers
    `NotFound` and leaves the collection as it was. */
module Handlers {
  import opened JsonValues
  import opened Records

  /** What a route answers: a record as JSON, an empty 204 reply, or one of
      the two error payloads. */
  datatype Reply = Json(repo: Repo) | NoContent | InvalidParams | NotFound

  datatype Outcome = Outcome(reply: Reply, repos: seq<Repo>)

  /** `{ ...repository, ...(title ? { title } : {}), ... }`: each of the three
      fields is overwritten only by a truthy value; id and likes are kept. */
  function Merge(r: Repo, b: Body): (u: Repo)
    ensures u.id == r.id && u.likes == r.likes
    ensures u.title == (if Supplied(b.title) then b.title.value else r.title)
    ensures u.url == (if Supplied(b.url) then b.url.value else r.url)
    ensures u.techs == (if Supplied(b.techs) then b.techs.value else r.techs)
  {
    r.(title := if Supplied(b.title) then b.title.value else r.title,
       url := if Supplied(b.url) then b.url.value else r.url,
       techs := if Supplied(b.techs) then b.techs.value else r.techs)
  }

  /** `splice(start, 1)` with JavaScript's reading of `start`: a negative
      start counts back from the end and is clamped at 0, a start past the
      end removes nothing. */
  function SpliceOne(s: seq<Repo>, start: int): (r: seq<Repo>)
    ensures 0 <= start < |s| ==> (|r| == |s| - 1 &&
      forall j :: 0 <= j < |r| ==> r[j] == if j < start then s[j] else s[j + 1])
    ensures start >= |s| ==> r == s
  {
    var k := if start < 0 then (if |s| + start < 0 then 0 else |s| + start)
             else (if start < |s| then start else |s|);
    if k < |s| then s[..k] + s[k + 1..] else s
  }

  /** What `splice(-1, 1)` would do if a handler ran without the gate: it
      removes the last record, not nothing. */
  lemma SpliceMinusOneDropsLast(s: seq<Repo>)
    requires s != []
    ensures SpliceOne(s, -1) == s[..|s| - 1]
  {
  }

  /** POST /repositories. */
  function Create(s: seq<Repo>, b: Body, newId: string): (o: Outcome)
    ensures !CreationValid(b) ==> o.reply == InvalidParams && o.repos == s
    ensures CreationValid(b) ==> (o.reply.Json? &&
      |o.repos| == |s| + 1 && o.repos[..|s|] == s && o.repos[|s|] == o.reply.repo)
    ensures CreationValid(b) ==> (o.reply.repo ==
      Repo(newId, b.title.value, b.url.value, b.techs.value, 0))
  {
    if CreationValid(b) then
      var r := Repo(newId, b.title.value, b.url.value, b.techs.value, 0);
      Outcome(Json(r), s + [r])
    else
      Outcome(InvalidParams, s)
  }

  /** PUT /repositories/:id. */
  function Update(s: seq<Repo>, id: string, b: Body, isUuid: string -> bool): (o: Outcome)
    ensures !IdValid(s, id, isUuid) ==> o == Outcome(NotFound, s)
    ensures IdValid(s, id, isUuid) ==>
      var i := IndexOf(s, id);
      |o.repos| == |s| && o.repos[i] == Merge(s[i], b) && o.reply == Json(o.repos[i]) &&
      forall j :: 0 <= j < |s| && j != i ==> o.repos[j] == s[j]
  {
    if IdValid(s, id, isUuid) then
      var i := IndexOf(s, id);
      var u := Merge(s[i], b);
      Outcome(Json(u), s[i := u])
    else
      Outcome(NotFound, s)
  }

  /** DELETE /repositories/:id. */
  function Delete(s: seq<Repo>, id: string, isUuid: string -> bool): (o: Outcome)
    ensures !IdValid(s, id, isUuid) ==> o == Outcome(NotFound, s)
    ensures IdValid(s, id, isUuid) ==>
      var i := IndexOf(s, id);
      o.reply == NoContent && |o.repos| == |s| - 1 &&
      forall j :: 0 <= j < |o.repos| ==> o.repos[j] == if j < i then s[j] else s[j + 1]
  {
    if IdValid(s, id, isUuid) then Outcome(NoContent, SpliceOne(s, IndexOf(s, id)))
    else Outcome(NotFound, s)
  }

  /** POST /repositories/:id/like. */
  function Like(s: seq<Repo>, id: string, isUuid: string -> bool): (o: Outcome)
    ensures !IdValid(s, id, isUuid) ==> o == Outcome(NotFound, s)
    ensures IdValid(s, id, isUuid) ==>
      var i := IndexOf(s, id);
      |o.repos| == |s| && o.repos[i] == s[i].(likes := s[i].likes + 1) &&
      o.reply == Json(o.repos[i]) &&
      forall j :: 0 <= j < |s| && j != i ==> o.repos[j] == s[j]
  {
    if IdValid(s, id, isUuid) then
      var i := IndexOf(s, id);
      var u := s[i].(likes := s[i].likes + 1);
      Outcome(Json(u), s[i := u])
    else
      Outcome(NotFound, s)
  }

  // ---------------------------------------------------------------------
  // Properties relating several requests

  /** A created record is found again by its id, and the gate now accepts
      that id, provided the generated id was UUID-shaped and not in use. */
  lemma CreateThenFound(s: seq<Repo>, b: Body, newId: string, isUuid: string -> bool)
    requires CreationValid(b) && isUuid(newId) && !Contains(s, newId)
    ensures IndexOf(Create(s, b, newId).repos, newId) == |s|
    ensures IdValid(Create(s, b, newId).repos, newId, isUuid)
  {
  }

  /** Creating with a fresh id keeps ids distinct. */
  lemma CreateKeepsDistinct(s: seq<Repo>, b: Body, newId: string)
    requires DistinctIds(s) && !Contains(s, newId)
    ensures DistinctIds(Create(s, b, newId).repos)
  {
  }

  /** Update and like never change which id sits where. */
  lemma UpdateLikeKeepIds(s: seq<Repo>, id: string, b: Body, isUuid: string -> bool)
    ensures SameIds(s, Update(s, id, b, isUuid).repos)
    ensures SameIds(s, Like(s, id, isUuid).repos)
  {
  }

  /** With distinct ids, a successful delete leaves no record with that id,
      and the ids stay distinct. */
  lemma DeleteRemovesId(s: seq<Repo>, id: string, isUuid: string -> bool)
    requires DistinctIds(s)
    ensures DistinctIds(Delete(s, id, isUuid).repos)
    ensures IdValid(s, id, isUuid) ==> !Contains(Delete(s, id, isUuid).repos, id)
  {
  }

  /** Updating twice with the same body is the same as updating once. */
  lemma UpdateIdempotent(s: seq<Repo>, id: string, b: Body, isUuid: string -> bool)
    ensures var t := Update(s, id, b, isUuid).repos;
      Update(t, id, b, isUuid).repos == t
  {
  }

  /** The collection after `n` likes of the same id. */
  ghost function LikeTimes(s: seq<Repo>, id: string, isUuid: string -> bool, n: nat): seq<Repo>
  {
    if n == 0 then s else Like(LikeTimes(s, id, isUuid, n - 1), id, isUuid).repos
  }

  /** `n` likes of an id the gate accepts add exactly `n` to that record's
      likes and change nothing else. */
  lemma {:induction false} LikeRepeated(s: seq<Repo>, id: string, isUuid: string -> bool, n: nat)
    requires IdValid(s, id, isUuid)
    ensures var t := LikeTimes(s, id, isUuid, n); var i := IndexOf(s, id);
      |t| == |s| && IndexOf(t, id) == i &&
      t[i] == s[i].(likes := s[i].likes + n) &&
      forall j :: 0 <= j < |s| && j != i ==> t[j] == s[j]
  {
    if n > 0 {
      LikeRepeated(s, id, isUuid, n - 1);
      var i := IndexOf(s, id);
      var t' := LikeTimes(s, id, isUuid, n - 1);
      var t := Like(t', id, isUuid).repos;
      assert t == LikeTimes(s, id, isUuid, n);
      assert IdValid(t', id, isUuid);
      UpdateLikeKeepIds(t', id, Body(None, None, None), isUuid);
      IndexOfSameIds(t', t, id);
      assert t[i] == t'[i].(likes := t'[i].likes + 1);
    }
  }

  /** Create a record, like it twice, delete it: the collection is empty
      again, and the record had two likes before it went. */
  lemma CreateLikeLikeDelete(b: Body, newId: string, isUuid: string -> bool)
    requires CreationValid(b) && isUuid(newId)
    ensures var s1 := Create([], b, newId).repos;
      var s3 := LikeTimes(s1, newId, isUuid, 2);
      |s3| == 1 && s3[0].likes == 2 && Delete(s3, newId, isUuid) == Outcome(NoContent, [])
  {
    var s1 := Create([], b, newId).repos;
    CreateThenFound([], b, newId, isUuid);
    LikeRepeated(s1, newId, isUuid, 2);
  }

  /** A body whose `techs` is missing is refused and nothing is stored,
      while an empty `techs` array is truthy and accepted. */
  lemma CreateTruthiness(newId: string)
    ensures Create([], Body(Some(Str("r")), Some(Str("u")), None), newId) == Outcome(InvalidParams, [])
    ensures Create([], Body(Some(Str("r")), Some(Str("u")), Some(Arr([]))), newId).reply.Json?
  {
  }
}
