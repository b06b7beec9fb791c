/** When reconciliation is safe: exactly for which rows and prefixes no bucket and
    no complete listing can make it remove a row that still owns an object
    (`ReconcileMissing` of catalog/catalog.go). */
module Reconciliation {
  import opened Wrappers
  import opened CatalogStore
  import opened World
  import Listing

  // ---- Keys made longer ----

  lemma {:induction false} ExtOfLonger(key: string, ext: string, i: nat)
    requires '.' !in ext && '/' !in ext && |key| < i <= |key| + 1 + |ext|
    ensures Listing.ExtFrom(key + "." + ext, i) == "." + ext
  {
    var longer := key + "." + ext;
    if i == |key| + 1 {
      assert longer == key + ("." + ext);
      assert longer[i - 1] == '.' && longer[i - 1..] == "." + ext;
    } else {
      assert longer[i - 1] == ext[i - 2 - |key|] && ext[i - 2 - |key|] in ext;
      ExtOfLonger(key, ext, i - 1);
    }
  }

  lemma {:induction false} SegmentsOfLonger(s: string, t: string, current: string)
    requires '/' !in t
    ensures var n := |Listing.Segments(s, current)| - 1;
      n >= 0 && Listing.Segments(s + t, current) == Listing.Segments(s, current)[..n] + [Listing.Segments(s, current)[n] + t]
    decreases s
  {
    if s == [] {
      WholeSegment(t, current);
      assert s + t == t;
    } else {
      assert (s + t)[1..] == s[1..] + t;
      if s[0] == '/' {
        SegmentsOfLonger(s[1..], t, "");
      } else {
        SegmentsOfLonger(s[1..], t, current + [s[0]]);
      }
    }
  }

  lemma {:induction false} WholeSegment(s: string, current: string)
    requires '/' !in s
    ensures Listing.Segments(s, current) == [current + s]
  {
    if s == [] {
      assert current + s == current;
    } else {
      WholeSegment(s[1..], current + [s[0]]);
      assert current + [s[0]] + s[1..] == current + s;
    }
  }

  lemma JpegExtension()
    ensures Listing.Classify(Listing.Upper(".JPG")) == Listing.Jpeg
  {
    assert Listing.Upper(".JPG") == ".JPG";
  }

  /** Adding an extension to a key. */
  lemma ExtAdded(key: string, ext: string)
    requires '.' !in ext && '/' !in ext
    ensures Listing.Ext(key + "." + ext) == "." + ext && Listing.KeyBase(key + "." + ext) == key
  {
    hide Listing.ExtFrom;
    ExtOfLonger(key, ext, |key + "." + ext|);
  }

  lemma LongerSafe(key: string, more: string)
    requires Listing.SafeKey(key) && '/' !in more && '\\' !in more && |more| > 2
    ensures Listing.SafeKey(key + more)
  {
    hide Listing.Segments;
    SegmentsOfLonger(key, more, "");
    var segments := Listing.Segments(key, "");
    var n := |segments| - 1;
    var last := segments[n] + more;
    assert |last| > 2;
    assert forall x :: x in segments[..n] + [last] ==> x in segments || x == last;
    assert (key + more)[0] == key[0];
  }

  /** A key that is kept stays one with ".JPG" added, and becomes the base of it. */
  lemma LongerKept(key: string)
    requires Listing.Kept(key)
    ensures Listing.Kept(key + ".JPG") && Listing.KeyBase(key + ".JPG") == key
  {
    hide Listing.SafeKey, Listing.Ext, Listing.KeyBase, Listing.Upper, Listing.Classify;
    assert key + "." + "JPG" == key + ".JPG" && "." + "JPG" == ".JPG";
    ExtAdded(key, "JPG");
    JpegExtension();
    LongerSafe(key, ".JPG");
  }

  // ---- The exact condition ----

  /** Whatever the bucket, and whatever complete listing of the prefix finds the
      row missing, nothing the row records is in the bucket. */
  ghost predicate NeverOrphaned(t: Table, k: string, prefix: string)
    requires k in t.rows
  {
    forall w: World, objs: seq<ObjectRef> :: w.table == t && Lists(objs, w, prefix) ==>
      k in Missing(w, Listing.Paired(objs).Keys, prefix) ==> Recorded(t.rows[k]) !! w.bucket.Keys
  }

  /** The bucket that shows it: the RAW sibling, which the listing cannot see, and
      one object under the prefix, which it does see. */
  function Remains(t: Table, jpeg: ObjectRef, raf: ObjectRef): World {
    var other := ObjectRef(jpeg.key + ".JPG", 0, "");
    World(map[raf.key := raf, other.key := other], t, {}, map[])
  }

  /** With a prefix that the JPEG has and the RAW has not, a complete listing makes
      reconciliation remove the row while its RAW is in the bucket. */
  lemma LongPrefixOrphans(t: Table, k: string, prefix: string)
    requires k in t.rows && t.rows[k].photo.keyBase == k && FromBucket(t.rows[k].photo) && !PrefixSpares(t.rows[k], prefix)
    ensures var p := t.rows[k].photo;
      var w := Remains(t, p.jpeg, p.raf.value);
      var objs := [ObjectRef(p.jpeg.key + ".JPG", 0, "")];
      && Lists(objs, w, prefix) && !LocalEtag(objs[0].etag)
      && k in Missing(w, Listing.Paired(objs).Keys, prefix)
      && !(Recorded(t.rows[k]) !! w.bucket.Keys)
  {
    hide Listing.KindOf, Listing.SafeKey, Listing.Ext, Listing.KeyBase;
    var p := t.rows[k].photo;
    var raf := p.raf.value;
    var w := Remains(t, p.jpeg, raf);
    var other := ObjectRef(p.jpeg.key + ".JPG", 0, "");
    var objs := [other];
    LongerKept(p.jpeg.key);
    assert prefix <= other.key && raf.key != other.key;
    assert objs[0] == other;
    assert Listing.Paired(objs) == Listing.Pair(map[], other) by { assert objs[..0] == []; }
    assert |k| < |p.jpeg.key| by { BaseShorter(p.jpeg, k); }
    assert raf.key in Recorded(t.rows[k]) by { RawRecorded(t.rows[k]); }
    assert raf.key in w.bucket.Keys;
    assert raf.key in Recorded(t.rows[k]) * w.bucket.Keys;
  }

  lemma BaseShorter(o: ObjectRef, base: string)
    requires Listing.Matches(o, base, Listing.Jpeg)
    ensures |base| < |o.key|
  {
    assert base + Listing.Ext(o.key) == o.key;
    assert Listing.Ext(o.key) != "" by { NoExtension(); }
  }

  lemma NoExtension()
    ensures Listing.Classify(Listing.Upper("")) == Listing.Other
  {
  }

  lemma RawRecorded(row: Row)
    requires row.photo.raf.Some? && Listing.Kept(row.photo.raf.value.key)
    ensures row.photo.raf.value.key in Recorded(row)
  {
    hide Listing.KindOf, Listing.SafeKey;
  }

  /** For every row from the bucket and every prefix: reconciliation can never
      orphan it exactly when the scan does not concern it, it has no RAW sibling,
      or the prefix reaches the RAW as well as the JPEG. */
  lemma NeverOrphanedExactly(t: Table, k: string, prefix: string)
    requires WellKeyed(World(map[], t, {}, map[])) && k in t.rows
    ensures NeverOrphaned(t, k, prefix) <==> PrefixSpares(t.rows[k], prefix)
  {
    hide Listing.Matches, LocalEtag, Recorded, Lists, Missing, Remains;
    if PrefixSpares(t.rows[k], prefix) {
      forall w: World, objs: seq<ObjectRef> | w.table == t && Lists(objs, w, prefix) && k in Missing(w, Listing.Paired(objs).Keys, prefix)
        ensures Recorded(t.rows[k]) !! w.bucket.Keys
      {
        MissingIsGone(w, objs, prefix, k);
      }
    } else {
      LongPrefixOrphans(t, k, prefix);
      assert Remains(t, t.rows[k].photo.jpeg, t.rows[k].photo.raf.value).table == t by { RemainsTable(t, t.rows[k].photo); }
    }
  }

  lemma RemainsTable(t: Table, p: Photo)
    requires p.raf.Some?
    ensures Remains(t, p.jpeg, p.raf.value).table == t
  {
  }

  /** A prefix that does not reach past the key base is always safe. */
  lemma ShortPrefixSpares(row: Row, prefix: string)
    requires FromBucket(row.photo) && prefix <= row.photo.keyBase
    ensures PrefixSpares(row, prefix)
  {
    hide LocalEtag;
    if row.photo.raf.Some? {
      assert row.photo.keyBase + Listing.Ext(row.photo.raf.value.key) == row.photo.raf.value.key;
    }
  }

  lemma {:induction false} ExtHasNoSlash(key: string, i: nat)
    requires i <= |key| && '/' !in key[i..]
    ensures '/' !in Listing.ExtFrom(key, i)
  {
    if i > 0 && key[i - 1] != '/' {
      assert key[i - 1..] == [key[i - 1]] + key[i..];
      if key[i - 1] != '.' {
        ExtHasNoSlash(key, i - 1);
      }
    }
  }

  /** A folder with its closing slash, or everything. */
  predicate IsFolder(prefix: string) {
    prefix == "" || prefix[|prefix| - 1] == '/'
  }

  /** Nor does the prefix of a folder ever separate a JPEG from its RAW. */
  lemma FolderSpares(row: Row, prefix: string)
    requires FromBucket(row.photo) && IsFolder(prefix)
    ensures PrefixSpares(row, prefix)
  {
    hide Listing.Ext;
    var key, base := row.photo.jpeg.key, row.photo.keyBase;
    if prefix <= key {
      var ext := Listing.Ext(key);
      assert base + ext == key;
      assert '/' !in ext by { NoSlashInExt(key); }
      assert forall j :: |base| <= j < |key| ==> key[j] == ext[j - |base|] && key[j] in ext;
      assert prefix == key[..|prefix|];
      assert prefix <= base;
      ShortPrefixSpares(row, prefix);
    }
  }

  lemma NoSlashInExt(key: string)
    ensures '/' !in Listing.Ext(key)
  {
    assert key[|key|..] == [];
    ExtHasNoSlash(key, |key|);
  }

  // ---- A row and a prefix for which it fails ----

  lemma SmallKey(ext: string)
    requires ext in ["JPG", "RAF"]
    ensures var key := "a." + ext;
      Listing.Kept(key) && Listing.KeyBase(key) == "a" && Listing.KindOf(key) == if ext == "JPG" then Listing.Jpeg else Listing.Raw
  {
    hide Listing.SafeKey, Listing.Ext, Listing.KeyBase, Listing.Upper, Listing.Classify;
    var key := "a." + ext;
    assert "a" + "." + ext == key && "." + "JPG" == ".JPG" && "." + "RAF" == ".RAF";
    ExtAdded("a", ext);
    JpegExtension();
    RawExtension();
    LetterSafe();
    assert "a" + ("." + ext) == key;
    LongerSafe("a", "." + ext);
  }

  lemma LetterSafe()
    ensures Listing.SafeKey("a")
  {
    hide Listing.Segments;
    WholeSegment("a", "");
    assert "" + "a" == "a" && "a"[0] == 'a';
  }

  lemma RawExtension()
    ensures Listing.Classify(Listing.Upper(".RAF")) == Listing.Raw
  {
    assert Listing.Upper(".RAF") == ".RAF";
  }

  /** "a.J" finds the JPEG of "a" and not its RAW. */
  lemma ExampleRow(row: Row, jpeg: ObjectRef, raf: ObjectRef)
    requires row.photo == Photo("a", "", "a", jpeg, Some(raf)) && jpeg == ObjectRef("a.JPG", 1, "1") && raf == ObjectRef("a.RAF", 1, "2")
    ensures FromBucket(row.photo) && !PrefixSpares(row, "a.J")
  {
    hide Listing.Kept, Listing.KindOf, Listing.KeyBase;
    assert "a." + "JPG" == "a.JPG" && "a." + "RAF" == "a.RAF";
    SmallKey("JPG");
    SmallKey("RAF");
    assert "a.JPG"[..3] == "a.J";
    assert "a.RAF"[2] != "a.J"[2];
  }
}
