/** Repository records, the ordered collection that holds them, the lookup by
    id and the two request gates that run before a handler. */
module Records {
  import opened JsonValues

  /** One stored repository. `likes` starts at 0 and only ever grows by one. */
  datatype Repo = Repo(id: string, title: Value, url: Value, techs: Value, likes: nat)

  /** The fields of a create or update request body that the handlers read. */
  datatype Body = Body(title: Option<Value>, url: Option<Value>, techs: Option<Value>)

  /** Two collections hold records with the same ids in the same places. */
  predicate SameIds(s: seq<Repo>, t: seq<Repo>) {
    |s| == |t| && forall j :: 0 <= j < |s| ==> s[j].id == t[j].id
  }

  /** No id occurs twice. The store never checks this; it holds because ids
      come from a UUID generator. */
  ghost predicate DistinctIds(s: seq<Repo>) {
    forall i, j :: 0 <= i < j < |s| ==> s[i].id != s[j].id
  }

  /** `repositories.some(repository => repository.id === id)`. */
  function Contains(s: seq<Repo>, id: string): (found: bool)
    ensures found <==> exists j :: 0 <= j < |s| && s[j].id == id
  {
    if s == [] then false else s[0].id == id || Contains(s[1..], id)
  }

  /** `repositories.findIndex(repository => repository.id === id)`: the first
      index holding that id, or -1 when there is none. */
  function IndexOf(s: seq<Repo>, id: string): (r: int)
    ensures -1 <= r < |s|
    ensures 0 <= r ==> s[r].id == id
    ensures forall j :: 0 <= j < |s| && (r < 0 || j < r) ==> s[j].id != id
  {
    if s == [] then -1
    else if s[0].id == id then 0
    else
      var k := IndexOf(s[1..], id);
      if k < 0 then -1 else k + 1
  }

  /** The lookup only looks at ids: records with the same ids in the same
      places give the same index. */
  lemma IndexOfSameIds(s: seq<Repo>, t: seq<Repo>, id: string)
    requires SameIds(s, t)
    ensures IndexOf(s, id) == IndexOf(t, id)
  {
  }

  /** The creation gate: `title`, `url` and `techs` must all be truthy. */
  function CreationValid(b: Body): (ok: bool)
    ensures ok <==> (b.title.Some? && b.url.Some? && b.techs.Some? &&
      {b.title.value, b.url.value, b.techs.value} !! Falsy)
  {
    Supplied(b.title) && Supplied(b.url) && Supplied(b.techs)
  }

  /** The id gate mounted on `/repositories/:id`: some record has the id and
      the id is UUID-shaped. It passes exactly when the handlers' own lookup
      will find an index, so a handler behind it never sees -1. */
  function IdValid(s: seq<Repo>, id: string, isUuid: string -> bool): (ok: bool)
    ensures ok <==> isUuid(id) && 0 <= IndexOf(s, id)
  {
    Contains(s, id) && isUuid(id)
  }
}
