/** The rows of the photo catalog and the statements that change one row:
    catalog/types.go, the photos table of catalog/store.go and the two
    user-owned columns of catalog/query.go. Timestamps are not modelled. */
module CatalogStore {
  import opened Wrappers

  datatype ObjectRef = ObjectRef(key: string, size: nat, etag: string)

  /** One capture of a listing: the JPEG and its optional RAW sibling. */
  datatype Photo = Photo(keyBase: string, folder: string, name: string, jpeg: ObjectRef, raf: Option<ObjectRef>)

  /** The part of the EXIF metadata that later queries read. */
  datatype Metadata = Metadata(takenAt: Option<string>, cameraModel: string, width: nat, height: nat, orientation: nat,
                               filmSimulation: string, recipeHash: string)

  /** A row. `rating` 0 stands for NULL; `discarded` is decision = 'discard'. */
  datatype Row = Row(id: nat, photo: Photo, thumbPath: string, meta: Metadata, rating: nat, discarded: bool)

  datatype Table = Table(rows: map<string, Row>, nextId: nat)

  /** The thumbnail file of a key base. Unlike the joined path of the program it
      never cleans the path; they agree on bases without empty path elements
      (`ThumbPaths.CleanIsThumbPath`). */
  function ThumbPath(keyBase: string): string {
    "thumbs/" + keyBase + ".jpg"
  }

  lemma ThumbPathInjective(a: string, b: string)
    requires ThumbPath(a) == ThumbPath(b)
    ensures a == b
  {
    var pa, pb := ThumbPath(a), ThumbPath(b);
    assert a == pa[7..|pa| - 4];
    assert b == pb[7..|pb| - 4];
  }

  /** Insert or update: a new row takes the next id; an existing one keeps its
      id and its user-owned columns. */
  function Upsert(t: Table, p: Photo, meta: Metadata): Table {
    if p.keyBase in t.rows then
      var prior := t.rows[p.keyBase];
      t.(rows := t.rows[p.keyBase := Row(prior.id, p, ThumbPath(p.keyBase), meta, prior.rating, prior.discarded)])
    else
      Table(t.rows[p.keyBase := Row(t.nextId, p, ThumbPath(p.keyBase), meta, 0, false)], t.nextId + 1)
  }

  function RafEtag(p: Photo): string {
    if p.raf.Some? then p.raf.value.etag else ""
  }

  /** The idempotency test of a scan: same JPEG ETag, same RAW sibling, and the
      thumbnail is still there. */
  predicate ShouldSkip(t: Table, thumbs: set<string>, p: Photo, force: bool) {
    && !force
    && p.keyBase in t.rows
    && t.rows[p.keyBase].photo.jpeg.etag != ""
    && t.rows[p.keyBase].photo.jpeg.etag == p.jpeg.etag
    && RafEtag(t.rows[p.keyBase].photo) == RafEtag(p)
    && ThumbPath(p.keyBase) in thumbs
  }

  /** A user decision on one photo. Nothing happens on an unknown key base, an
      out-of-range rating or an unknown decision. */
  datatype UserAction = SetRating(keyBase: string, rating: int) | SetDecision(keyBase: string, decision: string)

  function Decide(t: Table, a: UserAction): Table {
    if a.keyBase !in t.rows then t
    else
      var row := t.rows[a.keyBase];
      match a
      case SetRating(k, rating) =>
        if rating < 0 || rating > 5 then t
        else if rating > 0 then t.(rows := t.rows[k := row.(rating := rating, discarded := false)])
        else t.(rows := t.rows[k := row.(rating := 0)])
      case SetDecision(k, decision) =>
        if decision == "discard" then t.(rows := t.rows[k := row.(rating := 0, discarded := true)])
        else if decision == "" || decision == "none" then t.(rows := t.rows[k := row.(discarded := false)])
        else t
  }

  /** The selection states of one photo exclude each other. */
  ghost predicate Exclusive(t: Table) {
    forall k :: k in t.rows ==> t.rows[k].rating == 0 || !t.rows[k].discarded
  }
}
