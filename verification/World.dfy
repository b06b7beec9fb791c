/** The bucket, the catalog, the thumbnails and the albums together, and the
    atomic steps that purge and reconciliation are made of: `DeleteObjects` of
    catalog/s3.go, `ListDiscarded`, `StillDiscarded`, `BucketKeyRefs` and
    `DeletePhotos` of catalog/query.go. */
module World {
  import opened Wrappers
  import opened CatalogStore
  import Lex
  import Listing

  /** `albums` maps an album to the ids of its photos. */
  datatype World = World(bucket: map<string, ObjectRef>, table: Table, thumbs: set<string>, albums: map<nat, set<nat>>)

  /** What a purge needs to erase one rejected photo; "" stands for no RAW
      sibling and for no recorded thumbnail. */
  datatype Doomed = Doomed(keyBase: string, jpegKey: string, jpegSize: nat, rafKey: string, rafSize: nat, thumbPath: string)

  function Doom(keyBase: string, row: Row): Doomed {
    Doomed(keyBase, row.photo.jpeg.key, row.photo.jpeg.size,
           if row.photo.raf.Some? then row.photo.raf.value.key else "",
           if row.photo.raf.Some? then row.photo.raf.value.size else 0, row.thumbPath)
  }

  function Keys(d: Doomed): set<string> {
    {d.jpegKey} + if d.rafKey != "" then {d.rafKey} else {}
  }

  function Paths(d: Doomed): set<string> {
    {ThumbPath(d.keyBase)} + if d.thumbPath != "" then {d.thumbPath} else {}
  }

  /** The keys a row records. */
  function Recorded(row: Row): set<string> {
    Keys(Doom("", row))
  }

  // ---- Atomic steps ----

  function EraseObjects(w: World, gone: set<string>): World {
    w.(bucket := w.bucket - gone)
  }

  function RemoveThumbs(w: World, paths: set<string>): World {
    w.(thumbs := w.thumbs - paths)
  }

  /** The ids of the rows at the given key bases. */
  function Ids(t: Table, bases: set<string>): set<nat> {
    set k | k in bases && k in t.rows :: t.rows[k].id
  }

  function Cascade(albums: map<nat, set<nat>>, ids: set<nat>): map<nat, set<nat>> {
    map a | a in albums :: albums[a] - ids
  }

  /** Deleting rows; album membership goes with them. */
  function DeleteRows(w: World, bases: set<string>): World {
    w.(table := w.table.(rows := w.table.rows - bases), albums := Cascade(w.albums, Ids(w.table, bases)))
  }

  function Act(w: World, a: UserAction): World {
    w.(table := Decide(w.table, a))
  }

  function ActAll(w: World, actions: seq<UserAction>): World {
    if actions == [] then w else Act(ActAll(w, actions[..|actions| - 1]), actions[|actions| - 1])
  }

  // ---- Queries ----

  predicate StillDiscarded(w: World, keyBase: string) {
    keyBase in w.table.rows && w.table.rows[keyBase].discarded
  }

  ghost function DiscardedBases(w: World): set<string> {
    set k | k in w.table.rows && w.table.rows[k].discarded
  }

  /** The discard pile in key order. */
  ghost predicate IsDiscardPile(w: World, photos: seq<Doomed>) {
    && (forall i :: 0 <= i < |photos| ==>
          StillDiscarded(w, photos[i].keyBase) && photos[i] == Doom(photos[i].keyBase, w.table.rows[photos[i].keyBase]))
    && (forall k :: k in DiscardedBases(w) ==> exists i :: 0 <= i < |photos| && photos[i].keyBase == k)
    && (forall i, j :: 0 <= i < j < |photos| ==> Lex.Less(photos[i].keyBase, photos[j].keyBase))
  }

  // ---- What a purge is told, by the fields of the rows ----

  /** The pile lists the rejected rows, each once, in key order, with the keys and
      sizes of their originals and the thumbnail they record. */
  lemma PileMeans(w: World, photos: seq<Doomed>)
    requires IsDiscardPile(w, photos)
    ensures forall k :: (exists i :: 0 <= i < |photos| && photos[i].keyBase == k) <==> k in w.table.rows && w.table.rows[k].discarded
    ensures forall i, j :: 0 <= i < j < |photos| ==> Lex.Less(photos[i].keyBase, photos[j].keyBase)
    ensures forall i :: 0 <= i < |photos| ==>
      var d, row := photos[i], w.table.rows[photos[i].keyBase];
      && d.jpegKey == row.photo.jpeg.key && d.jpegSize == row.photo.jpeg.size && d.thumbPath == row.thumbPath
      && (match row.photo.raf
          case None => d.rafKey == "" && d.rafSize == 0
          case Some(raf) => d.rafKey == raf.key && d.rafSize == raf.size)
  {
    hide Lex.Less;
    forall k | k in w.table.rows && w.table.rows[k].discarded
      ensures exists i :: 0 <= i < |photos| && photos[i].keyBase == k
    {
      assert k in DiscardedBases(w);
    }
  }

  /** A row records the key of its JPEG, and of its RAW if there is one. */
  lemma RecordedMeans(row: Row, key: string)
    ensures key in Recorded(row) <==> key == row.photo.jpeg.key || (key != "" && exists raf :: row.photo.raf == Some(raf) && raf.key == key)
  {
    if key in Recorded(row) && key != row.photo.jpeg.key {
      assert row.photo.raf == Some(row.photo.raf.value);
    }
  }

  /** Deleting rows takes them out of the albums and touches nothing else. */
  lemma DeleteRowsMeans(w: World, bases: set<string>)
    ensures var t := DeleteRows(w, bases);
      && t.bucket == w.bucket && t.thumbs == w.thumbs && t.table.nextId == w.table.nextId && t.albums.Keys == w.albums.Keys
      && (forall k :: k in t.table.rows <==> k in w.table.rows && k !in bases)
      && (forall k :: k in t.table.rows ==> t.table.rows[k] == w.table.rows[k])
      && (forall a, id :: a in w.albums ==>
            (id in t.albums[a] <==> id in w.albums[a] && !exists k :: k in w.table.rows && k in bases && w.table.rows[k].id == id))
  {
  }

  // ---- Reconciliation with a listing ----

  /** ETags the catalog itself makes up for local files; the database compares
      without regard to the case of ASCII letters. */
  predicate LocalEtag(etag: string) {
    |etag| >= 6 && Listing.Upper(etag[..6]) == "LOCAL-"
  }

  /** The rows whose objects left the bucket, judged by one listing. */
  ghost function Missing(w: World, present: set<string>, prefix: string): set<string> {
    if present == {} then {}
    else set k | k in w.table.rows && !LocalEtag(w.table.rows[k].photo.jpeg.etag)
                 && prefix <= w.table.rows[k].photo.jpeg.key && k !in present
  }

  ghost function PathsOf(w: World, bases: set<string>): set<string> {
    set k, p | k in bases && k in w.table.rows && p in Paths(Doom(k, w.table.rows[k])) :: p
  }

  /** Rows first, thumbnails second; the bucket is never touched. A thumbnail that
      cannot be removed, one of `stuck`, stays behind. */
  ghost function Reconciled(w: World, present: set<string>, prefix: string, stuck: set<string>): World {
    var gone := Missing(w, present, prefix);
    RemoveThumbs(DeleteRows(w, gone), PathsOf(w, gone) - stuck)
  }

  lemma LocalEtagMeans(etag: string)
    ensures LocalEtag(etag) <==>
      |etag| >= 6 && etag[0] in "lL" && etag[1] in "oO" && etag[2] in "cC" && etag[3] in "aA" && etag[4] in "lL" && etag[5] == '-'
  {
    hide LocalEtag;
    if |etag| >= 6 {
      var s := etag[..6];
      SixUpper(s);
      LocalIsUpper(etag);
    } else {
      ShortIsNotLocal(etag);
    }
  }

  lemma SixUpper(s: string)
    requires |s| == 6
    ensures Listing.Upper(s) == [Up(s[0]), Up(s[1]), Up(s[2]), Up(s[3]), Up(s[4]), Up(s[5])]
  {
    hide Listing.Upper;
    UpperFirst(s);
    UpperFirst(s[1..]);
    UpperFirst(s[2..]);
    UpperFirst(s[3..]);
    UpperFirst(s[4..]);
    UpperFirst(s[5..]);
    assert Listing.Upper(s[6..]) == [] by { assert |Listing.Upper(s[6..])| == 0; }
  }

  lemma UpperFirst(s: string)
    requires s != []
    ensures Listing.Upper(s) == [Up(s[0])] + Listing.Upper(s[1..])
  {
  }

  function Up(c: char): char {
    if 'a' <= c <= 'z' then (c as int - 32) as char else c
  }

  lemma LocalIsUpper(etag: string)
    requires |etag| >= 6
    ensures LocalEtag(etag) <==> Listing.Upper(etag[..6]) == ['L', 'O', 'C', 'A', 'L', '-']
  {
  }

  lemma ShortIsNotLocal(etag: string)
    requires |etag| < 6
    ensures !LocalEtag(etag)
  {
  }

  /** An empty listing removes nothing: a bucket that has been emptied cannot be
      told from one that was misconfigured. */
  lemma EmptyListingKeeps(w: World, prefix: string, stuck: set<string>)
    ensures Reconciled(w, {}, prefix, stuck) == w
  {
    KeepsAll(w, {}, prefix, stuck);
  }

  /** Nothing missing, nothing removed. */
  lemma KeepsAll(w: World, present: set<string>, prefix: string, stuck: set<string>)
    requires Missing(w, present, prefix) == {}
    ensures Reconciled(w, present, prefix, stuck) == w
  {
    hide Missing;
    assert Ids(w.table, {}) == {} && PathsOf(w, {}) == {};
    assert forall a :: a in w.albums ==> w.albums[a] - {} == w.albums[a];
    assert Cascade(w.albums, {}) == w.albums;
    assert w.table.rows - {} == w.table.rows && w.thumbs - ({} - stuck) == w.thumbs;
  }

  /** Row by row: what reconciliation removes, and what goes with it. */
  lemma ReconciledMeans(w: World, present: set<string>, prefix: string, stuck: set<string>)
    ensures var t := Reconciled(w, present, prefix, stuck);
      && t.bucket == w.bucket && t.table.nextId == w.table.nextId && t.table.rows.Keys <= w.table.rows.Keys
      && (forall b :: b in w.table.rows ==>
            var jpeg := w.table.rows[b].photo.jpeg;
            && (b !in t.table.rows <==> present != {} && !LocalEtag(jpeg.etag) && prefix <= jpeg.key && b !in present)
            && (b in t.table.rows ==> t.table.rows[b] == w.table.rows[b]))
      && t.thumbs <= w.thumbs
      && (forall p :: p in w.thumbs ==>
            (p !in t.thumbs <==> p !in stuck && exists b :: b in w.table.rows && b !in t.table.rows && HasThumb(w.table.rows[b], b, p)))
      && t.albums.Keys == w.albums.Keys
      && (forall a, id :: a in w.albums ==>
            (id in t.albums[a] <==> id in w.albums[a] && !exists b :: b in w.table.rows && b !in t.table.rows && w.table.rows[b].id == id))
  {
    hide LocalEtag, Doom, Paths;
    var gone := Missing(w, present, prefix);
    var t := Reconciled(w, present, prefix, stuck);
    assert forall b :: b in w.table.rows ==> (b !in t.table.rows <==> b in gone);
    forall b, p | b in w.table.rows
      ensures p in Paths(Doom(b, w.table.rows[b])) <==> HasThumb(w.table.rows[b], b, p)
    {
      ThumbsOfRow(w.table.rows[b], b, p);
    }
  }

  /** The thumbnail files of a row: that of its key base and the one it records. */
  predicate HasThumb(row: Row, base: string, path: string) {
    path == "thumbs/" + base + ".jpg" || (path == row.thumbPath && path != "")
  }

  lemma ThumbsOfRow(row: Row, base: string, path: string)
    ensures path in Paths(Doom(base, row)) <==> HasThumb(row, base, path)
  {
  }

  // ---- Where rows come from ----

  /** A photo as a listing of the bucket yields it: its keys are its base plus an
      extension that the listing keeps. */
  ghost predicate FromBucket(p: Photo) {
    && !LocalEtag(p.jpeg.etag)
    && Listing.Matches(p.jpeg, p.keyBase, Listing.Jpeg)
    && (p.raf.Some? ==> Listing.Matches(p.raf.value, p.keyBase, Listing.Raw))
  }

  /** Every row is that of its key base, and comes from the bucket or from a
      local directory. */
  ghost predicate WellKeyed(w: World) {
    forall k :: k in w.table.rows ==>
      w.table.rows[k].photo.keyBase == k
      && (FromBucket(w.table.rows[k].photo) || LocalEtag(w.table.rows[k].photo.jpeg.etag))
  }

  /** A row records no thumbnail but that of its key base. */
  ghost predicate OwnThumbs(w: World) {
    forall k :: k in w.table.rows ==> w.table.rows[k].thumbPath == "" || w.table.rows[k].thumbPath == ThumbPath(k)
  }

  /** `objs` lists every object of the bucket under the prefix, and only those. */
  ghost predicate Lists(objs: seq<ObjectRef>, w: World, prefix: string) {
    && (forall i :: 0 <= i < |objs| ==> prefix <= objs[i].key && objs[i].key in w.bucket && w.bucket[objs[i].key] == objs[i])
    && (forall k :: k in w.bucket && prefix <= k ==> exists i :: 0 <= i < |objs| && objs[i].key == k)
  }

  /** A listing is complete when it holds exactly the objects whose key has the
      prefix, in any order. */
  lemma ListsExactly(objs: seq<ObjectRef>, w: World, prefix: string)
    requires forall k :: k in w.bucket ==> w.bucket[k].key == k
    ensures Lists(objs, w, prefix) <==>
      forall o: ObjectRef :: o in objs <==> o.key in w.bucket && w.bucket[o.key] == o && prefix == o.key[..if |prefix| < |o.key| then |prefix| else |o.key|]
  {
    if Lists(objs, w, prefix) {
      forall o: ObjectRef | o.key in w.bucket && w.bucket[o.key] == o && prefix <= o.key
        ensures o in objs
      {
        var i :| 0 <= i < |objs| && objs[i].key == o.key;
      }
    }
    if forall o: ObjectRef :: o in objs <==> o.key in w.bucket && w.bucket[o.key] == o && prefix == o.key[..if |prefix| < |o.key| then |prefix| else |o.key|] {
      forall k | k in w.bucket && prefix <= k
        ensures exists i :: 0 <= i < |objs| && objs[i].key == k
      {
        assert w.bucket[k] in objs;
      }
      assert forall i :: 0 <= i < |objs| ==> objs[i] in objs;
    }
  }

  /** A photo of the bucket has no made-up ETag and keys of its base: a JPEG, and a
      RAW if it has one. */
  lemma FromBucketExactly(p: Photo)
    ensures FromBucket(p) <==>
      && !LocalEtag(p.jpeg.etag)
      && Listing.Kept(p.jpeg.key) && Listing.KeyBase(p.jpeg.key) == p.keyBase && Listing.KindOf(p.jpeg.key) == Listing.Jpeg
      && (p.raf != None ==>
            var raf := p.raf.value.key; Listing.Kept(raf) && Listing.KeyBase(raf) == p.keyBase && Listing.KindOf(raf) == Listing.Raw)
  {
    hide Listing.Kept, Listing.KindOf, LocalEtag;
  }

  /** A listed object makes its key base present. */
  lemma ListedIsPresent(objs: seq<ObjectRef>, w: World, prefix: string, o: ObjectRef, base: string, kind: Listing.Kind)
    requires Lists(objs, w, prefix) && prefix <= o.key && o.key in w.bucket
    requires Listing.Matches(o, base, kind)
    ensures base in Listing.Paired(objs)
  {
    Listing.PairedIsLast(objs, base);
    var i :| 0 <= i < |objs| && objs[i].key == o.key;
    assert Listing.Kept(objs[i].key) && Listing.KeyBase(objs[i].key) == base;
  }

  /** What a listing yields comes from the bucket, whatever the order of the
      objects, provided the ETags are not of the made-up shape. */
  lemma ListedFromBucket(objs: seq<ObjectRef>, base: string)
    requires forall i :: 0 <= i < |objs| ==> !LocalEtag(objs[i].etag)
    requires base in Listing.Paired(objs) && Listing.Paired(objs)[base].jpeg.Some?
    ensures FromBucket(Listing.ToPhoto(base, Listing.Paired(objs)[base]))
  {
    hide Listing.Matches, LocalEtag;
    Listing.PairedIsLast(objs, base);
  }

  /** A scan of this prefix that sees the JPEG of the row would see its RAW
      sibling too, or the scan does not concern the row. */
  predicate PrefixSpares(row: Row, prefix: string) {
    || LocalEtag(row.photo.jpeg.etag) || !(prefix <= row.photo.jpeg.key)
    || row.photo.raf.None? || prefix <= row.photo.raf.value.key
  }

  /** A reconciled row has left the bucket entirely, as long as the prefix does not
      separate its JPEG from its RAW. */
  lemma MissingIsGone(w: World, objs: seq<ObjectRef>, prefix: string, k: string)
    requires WellKeyed(w) && Lists(objs, w, prefix)
    requires k in Missing(w, Listing.Paired(objs).Keys, prefix) && PrefixSpares(w.table.rows[k], prefix)
    ensures Recorded(w.table.rows[k]) !! w.bucket.Keys
  {
    hide Listing.Matches, LocalEtag, Lists;
    var p := w.table.rows[k].photo;
    if p.jpeg.key in w.bucket {
      ListedIsPresent(objs, w, prefix, p.jpeg, k, Listing.Jpeg);
    }
    if p.raf.Some? && p.raf.value.key in w.bucket {
      ListedIsPresent(objs, w, prefix, p.raf.value, k, Listing.Raw);
    }
  }
}
