/** Listing the bucket and pairing JPEG and RAW siblings: `ListPhotos`,
    `safeKey` and `classify` of catalog/s3.go. Upper-casing is that of ASCII. */
module Listing {
  import opened Wrappers
  import opened CatalogStore
  import Lex

  // ---- Keys ----

  /** The extension found walking back from position i: from the last dot of the
      last path element. */
  function ExtFrom(key: string, i: nat): (ext: string)
    requires i <= |key|
    ensures |ext| <= |key| && ext == key[|key| - |ext|..]
  {
    if i == 0 || key[i - 1] == '/' then ""
    else if key[i - 1] == '.' then key[i - 1..]
    else ExtFrom(key, i - 1)
  }

  function Ext(key: string): string {
    ExtFrom(key, |key|)
  }

  /** The key base: what pairs the siblings of one capture. */
  function KeyBase(key: string): (base: string)
    ensures base + Ext(key) == key
  {
    key[..|key| - |Ext(key)|]
  }

  function Upper(s: string): (u: string)
    ensures |u| == |s|
  {
    if s == [] then []
    else [if 'a' <= s[0] <= 'z' then (s[0] as int - 32) as char else s[0]] + Upper(s[1..])
  }

  datatype Kind = Other | Jpeg | Raw

  function Classify(upperExt: string): Kind {
    if upperExt in [".JPG", ".JPEG"] then Jpeg
    else if upperExt in [".RAF", ".NEF", ".CR2", ".CR3", ".ARW", ".DNG", ".ORF", ".RW2", ".PEF", ".SRW", ".X3F"] then Raw
    else Other
  }

  function KindOf(key: string): Kind {
    Classify(Upper(Ext(key)))
  }

  /** The path elements of s, the one being read given first. */
  function Segments(s: string, current: string): seq<string> {
    if s == [] then [current]
    else if s[0] == '/' then [current] + Segments(s[1..], "")
    else Segments(s[1..], current + [s[0]])
  }

  predicate SafeKey(key: string) {
    && key != "" && key[0] != '/' && '\\' !in key
    && "." !in Segments(key, "") && ".." !in Segments(key, "")
  }

  /** The objects a listing keeps. */
  predicate Kept(key: string) {
    key != "" && key[|key| - 1] != '/' && KindOf(key) != Other && SafeKey(key)
  }

  /** The extension is what follows the last dot of the last path element, dot
      included; nothing without one. */
  lemma {:induction false} ExtMeans(key: string, i: nat)
    requires i <= |key| && '.' !in key[i..] && '/' !in key[i..]
    ensures var ext := ExtFrom(key, i);
      && (ext == "" <==> forall j :: 0 <= j < |key| && key[j] == '.' ==> '/' in key[j..])
      && (ext != "" ==> ext[0] == '.' && '.' !in ext[1..] && '/' !in ext)
  {
    if i == 0 {
      assert key[0..] == key;
    } else {
      assert key[i - 1..] == [key[i - 1]] + key[i..];
      if key[i - 1] == '/' {
        forall j | 0 <= j < |key| && key[j] == '.'
          ensures '/' in key[j..]
        {
          NotBehind(key, i, j);
        }
      } else if key[i - 1] != '.' {
        ExtMeans(key, i - 1);
      } else {
        assert '/' !in key[i - 1..];
      }
    }
  }

  lemma NotBehind(key: string, i: nat, j: nat)
    requires 0 < i <= |key| && j < |key| && key[i - 1] == '/' && key[j] == '.' && '.' !in key[i..]
    ensures '/' in key[j..]
  {
    assert forall m :: i <= m < |key| ==> key[m] == key[i..][m - i];
    assert key[j..][i - 1 - j] == '/';
  }

  /** Letter by letter the same, but for the case of ASCII letters; `name` is in
      small letters. */
  ghost predicate SameLetters(s: string, name: string) {
    |s| == |name| && forall i :: 0 <= i < |s| ==> s[i] == name[i] || ('a' <= name[i] <= 'z' && s[i] as int == name[i] as int - 32)
  }

  const JPEG_EXTS := [".jpg", ".jpeg"]
  const RAW_EXTS := [".raf", ".nef", ".cr2", ".cr3", ".arw", ".dng", ".orf", ".rw2", ".pef", ".srw", ".x3f"]

  lemma {:induction false} UpperAt(s: string, i: nat)
    requires i < |s|
    ensures Upper(s)[i] == if 'a' <= s[i] <= 'z' then (s[i] as int - 32) as char else s[i]
  {
    if i > 0 {
      UpperAt(s[1..], i - 1);
    }
  }

  lemma SameUpper(s: string, name: string, upper: string)
    requires |upper| == |name|
    requires forall i :: 0 <= i < |name| ==> !('A' <= name[i] <= 'Z') && upper[i] == if 'a' <= name[i] <= 'z' then (name[i] as int - 32) as char else name[i]
    ensures Upper(s) == upper <==> SameLetters(s, name)
  {
    forall i | 0 <= i < |s|
      ensures Upper(s)[i] == if 'a' <= s[i] <= 'z' then (s[i] as int - 32) as char else s[i]
    {
      UpperAt(s, i);
    }
  }

  /** A key is that of a JPEG or of a RAW by its extension, whatever the case. */
  lemma KindMeans(key: string)
    ensures KindOf(key) == Jpeg <==> exists i :: 0 <= i < |JPEG_EXTS| && SameLetters(Ext(key), JPEG_EXTS[i])
    ensures KindOf(key) == Raw <==> exists i :: 0 <= i < |RAW_EXTS| && SameLetters(Ext(key), RAW_EXTS[i])
  {
    hide Ext, SameLetters, Upper;
    var e := Ext(key);
    SameUpper(e, JPEG_EXTS[0], ".JPG");
    SameUpper(e, JPEG_EXTS[1], ".JPEG");
    SameUpper(e, RAW_EXTS[0], ".RAF");
    SameUpper(e, RAW_EXTS[1], ".NEF");
    SameUpper(e, RAW_EXTS[2], ".CR2");
    SameUpper(e, RAW_EXTS[3], ".CR3");
    SameUpper(e, RAW_EXTS[4], ".ARW");
    SameUpper(e, RAW_EXTS[5], ".DNG");
    SameUpper(e, RAW_EXTS[6], ".ORF");
    SameUpper(e, RAW_EXTS[7], ".RW2");
    SameUpper(e, RAW_EXTS[8], ".PEF");
    SameUpper(e, RAW_EXTS[9], ".SRW");
    SameUpper(e, RAW_EXTS[10], ".X3F");
    KindByUpper(e);
  }

  lemma KindByUpper(e: string)
    ensures Classify(Upper(e)) == Jpeg <==> Upper(e) == ".JPG" || Upper(e) == ".JPEG"
    ensures Classify(Upper(e)) == Raw <==>
      || Upper(e) == ".RAF" || Upper(e) == ".NEF" || Upper(e) == ".CR2" || Upper(e) == ".CR3" || Upper(e) == ".ARW" || Upper(e) == ".DNG"
      || Upper(e) == ".ORF" || Upper(e) == ".RW2" || Upper(e) == ".PEF" || Upper(e) == ".SRW" || Upper(e) == ".X3F"
  {
    hide Upper;
  }

  /** From i to j is a whole element of a path. */
  ghost predicate Element(s: string, i: nat, j: nat) {
    i <= j <= |s| && (i == 0 || s[i - 1] == '/') && (j == |s| || s[j] == '/') && '/' !in s[i..j]
  }

  lemma {:induction false} SegmentsMean(s: string, current: string, seg: string)
    requires '/' !in current
    ensures seg in Segments(s, current) <==> exists i: nat, j: nat :: Element(current + s, i, j) && (current + s)[i..j] == seg
    decreases |s|
  {
    var all := current + s;
    if s == [] {
      assert all[0..|all|] == current;
      assert Element(all, 0, |all|);
      forall i: nat, j: nat | Element(all, i, j)
        ensures i == 0 && j == |all|
      {
      }
    } else if s[0] != '/' {
      assert current + [s[0]] + s[1..] == all;
      SegmentsMean(s[1..], current + [s[0]], seg);
    } else {
      SegmentsMean(s[1..], "", seg);
      var n := |current|;
      assert "" + s[1..] == s[1..] && all[n + 1..] == s[1..];
      assert all[0..n] == current && Element(all, 0, n);
      forall i: nat, j: nat | Element(s[1..], i, j)
        ensures Element(all, i + n + 1, j + n + 1) && all[i + n + 1..j + n + 1] == s[1..][i..j]
      {
        ElementShifted(all, n, i, j);
      }
      forall i: nat, j: nat | Element(all, i, j) && all[i..j] != current
        ensures i > n && Element(s[1..], i - n - 1, j - n - 1) && s[1..][i - n - 1..j - n - 1] == all[i..j]
      {
        ElementBehind(all, n, i, j);
      }
    }
  }

  lemma ElementShifted(all: string, n: nat, i: nat, j: nat)
    requires n < |all| && all[n] == '/' && Element(all[n + 1..], i, j)
    ensures Element(all, i + n + 1, j + n + 1) && all[i + n + 1..j + n + 1] == all[n + 1..][i..j]
  {
    assert all[i + n + 1..j + n + 1] == all[n + 1..][i..j];
  }

  lemma ElementBehind(all: string, n: nat, i: nat, j: nat)
    requires n < |all| && all[n] == '/' && '/' !in all[..n] && Element(all, i, j) && all[i..j] != all[..n]
    ensures i > n && Element(all[n + 1..], i - n - 1, j - n - 1) && all[n + 1..][i - n - 1..j - n - 1] == all[i..j]
  {
    assert forall m :: 0 <= m < n ==> all[m] == all[..n][m];
    assert forall m :: i <= m < j ==> all[m] == all[i..j][m - i];
    assert all[n + 1..][i - n - 1..j - n - 1] == all[i..j];
  }

  /** The keys a listing keeps: a photo by its extension, with a path that stays
      below the directory it is joined to. */
  lemma KeptMeans(key: string)
    ensures Kept(key) <==>
      && (KindOf(key) == Jpeg || KindOf(key) == Raw)
      && key != "" && key[0] != '/' && key[|key| - 1] != '/' && '\\' !in key
      && forall i: nat, j: nat :: Element(key, i, j) ==> key[i..j] != "." && key[i..j] != ".."
  {
    hide KindOf, Segments;
    SegmentsMean(key, "", ".");
    SegmentsMean(key, "", "..");
    assert "" + key == key;
    if key != "" {
      KindIsOne(key);
    }
  }

  lemma KindIsOne(key: string)
    ensures KindOf(key) == Other || KindOf(key) == Jpeg || KindOf(key) == Raw
  {
  }

  // ---- Pairing ----

  datatype Capture = Capture(jpeg: Option<ObjectRef>, raf: Option<ObjectRef>)

  function Pair(paired: map<string, Capture>, obj: ObjectRef): map<string, Capture> {
    if !Kept(obj.key) then paired
    else
      var base := KeyBase(obj.key);
      var c := if base in paired then paired[base] else Capture(None, None);
      paired[base := if KindOf(obj.key) == Jpeg then c.(jpeg := Some(obj)) else c.(raf := Some(obj))]
  }

  function Paired(objs: seq<ObjectRef>): map<string, Capture> {
    if objs == [] then map[] else Pair(Paired(objs[..|objs| - 1]), objs[|objs| - 1])
  }

  predicate Matches(obj: ObjectRef, base: string, kind: Kind) {
    Kept(obj.key) && KeyBase(obj.key) == base && KindOf(obj.key) == kind
  }

  /** The last listed object of a base and kind, if there is one. */
  ghost predicate LastListed(objs: seq<ObjectRef>, base: string, kind: Kind, found: Option<ObjectRef>) {
    match found
    case None => forall i :: 0 <= i < |objs| ==> !Matches(objs[i], base, kind)
    case Some(o) =>
      exists i :: 0 <= i < |objs| && objs[i] == o && Matches(o, base, kind)
        && forall j :: i < j < |objs| ==> !Matches(objs[j], base, kind)
  }

  lemma LastListedNext(objs: seq<ObjectRef>, base: string, kind: Kind, found: Option<ObjectRef>)
    requires objs != [] && LastListed(objs[..|objs| - 1], base, kind, found)
    ensures var o := objs[|objs| - 1];
      LastListed(objs, base, kind, if Matches(o, base, kind) then Some(o) else found)
  {
    hide Matches;
    var n := |objs| - 1;
    var o := objs[n];
    if Matches(o, base, kind) {
      assert objs[n] == o;
    } else if found.Some? {
      var i :| 0 <= i < n && objs[..n][i] == found.value && Matches(found.value, base, kind)
        && forall j :: i < j < n ==> !Matches(objs[..n][j], base, kind);
      forall j | i < j < |objs|
        ensures !Matches(objs[j], base, kind)
      {
        if j < n {
          assert !Matches(objs[..n][j], base, kind);
        }
      }
      assert objs[i] == found.value;
    } else {
      forall j | 0 <= j < |objs|
        ensures !Matches(objs[j], base, kind)
      {
        if j < n {
          assert !Matches(objs[..n][j], base, kind);
        }
      }
    }
  }

  lemma KeptKinds(key: string)
    requires Kept(key)
    ensures KindOf(key) == Jpeg || KindOf(key) == Raw
  {
  }

  lemma NoneListed(base: string)
    ensures LastListed([], base, Jpeg, None) && LastListed([], base, Raw, None) && !HasKept([], base)
  {
  }

  ghost predicate HasKept(objs: seq<ObjectRef>, base: string) {
    exists i :: 0 <= i < |objs| && Kept(objs[i].key) && KeyBase(objs[i].key) == base
  }

  lemma HasKeptNext(objs: seq<ObjectRef>, base: string)
    requires objs != []
    ensures var o := objs[|objs| - 1];
      HasKept(objs, base) <==> HasKept(objs[..|objs| - 1], base) || (Kept(o.key) && KeyBase(o.key) == base)
  {
    hide Kept, KeyBase;
    var n := |objs| - 1;
    if i :| 0 <= i < n && Kept(objs[..n][i].key) && KeyBase(objs[..n][i].key) == base {
      assert Kept(objs[i].key) && KeyBase(objs[i].key) == base;
    }
    if i :| 0 <= i < |objs| && Kept(objs[i].key) && KeyBase(objs[i].key) == base {
      if i < n {
        assert Kept(objs[..n][i].key) && KeyBase(objs[..n][i].key) == base;
      }
    }
  }

  /** Pairing keeps, for each base, its last JPEG and its last RAW; a base is
      there exactly when some kept object, RAW-only ones included, has it. */
  lemma {:induction false} PairedIsLast(objs: seq<ObjectRef>, base: string)
    ensures var m := Paired(objs);
      && (base in m <==> HasKept(objs, base))
      && LastListed(objs, base, Jpeg, if base in m then m[base].jpeg else None)
      && LastListed(objs, base, Raw, if base in m then m[base].raf else None)
  {
    hide Kept, KindOf, LastListed, KeyBase, HasKept;
    if objs == [] {
      NoneListed(base);
    } else {
      var n := |objs| - 1;
      PairedIsLast(objs[..n], base);
      if Kept(objs[n].key) {
        KeptKinds(objs[n].key);
      }
      var m := Paired(objs[..n]);
      LastListedNext(objs, base, Jpeg, if base in m then m[base].jpeg else None);
      LastListedNext(objs, base, Raw, if base in m then m[base].raf else None);
      HasKeptNext(objs, base);
    }
  }

  // ---- The listing ----

  function NonEmpty(segments: seq<string>): seq<string> {
    if segments == [] then [] else (if segments[0] == "" then [] else [segments[0]]) + NonEmpty(segments[1..])
  }

  function Slashed(segments: seq<string>): string {
    if segments == [] then "" else if |segments| == 1 then segments[0] else segments[0] + "/" + Slashed(segments[1..])
  }

  /** The cleaned directory of a base; "" for the top. */
  function DirOf(base: string): string {
    var segments := Segments(base, "");
    Slashed(NonEmpty(if segments == [] then [] else segments[..|segments| - 1]))
  }

  /** The last path element, slashes after it not counting. */
  function NameOf(base: string): string {
    var segments := NonEmpty(Segments(base, ""));
    if segments != [] then segments[|segments| - 1] else if base == "" then "." else "/"
  }

  function ToPhoto(base: string, c: Capture): Photo
    requires c.jpeg.Some?
  {
    Photo(base, DirOf(base), NameOf(base), c.jpeg.value, c.raf)
  }

  type Page = Result<seq<ObjectRef>, string>

  /** The objects of the pages, up to the first that failed. */
  function Objects(pages: seq<Page>): seq<ObjectRef> {
    if pages == [] || pages[0].Err? then [] else pages[0].value + Objects(pages[1..])
  }

  ghost predicate IsListingOf(photos: seq<Photo>, paired: map<string, Capture>) {
    && (forall i :: 0 <= i < |photos| ==>
          photos[i].keyBase in paired && paired[photos[i].keyBase].jpeg.Some?
          && photos[i] == ToPhoto(photos[i].keyBase, paired[photos[i].keyBase]))
    && (forall b :: b in paired && paired[b].jpeg.Some? ==> ToPhoto(b, paired[b]) in photos)
    && (forall i, j :: 0 <= i < j < |photos| ==> Lex.Less(photos[i].keyBase, photos[j].keyBase))
  }

  lemma {:induction false} PairedAppend(a: seq<ObjectRef>, o: ObjectRef)
    ensures Paired(a + [o]) == Pair(Paired(a), o)
  {
    assert (a + [o])[..|a|] == a;
  }

  lemma {:induction false} ObjectsSplit(pages: seq<Page>, n: nat)
    requires n < |pages| && forall i :: 0 <= i <= n ==> pages[i].Ok?
    ensures Objects(pages[..n + 1]) == Objects(pages[..n]) + pages[n].value
  {
    if n == 0 {
      assert pages[..1] == [pages[0]] && pages[..0] == [];
      assert [pages[0]][1..] == [];
    } else {
      ObjectsSplit(pages[1..], n - 1);
      assert pages[..n + 1][1..] == pages[1..][..n];
      assert pages[..n][1..] == pages[1..][..n - 1];
    }
  }

  lemma PairedNothing()
    ensures Paired([]) == map[]
  {
  }

  /** The captures that have a JPEG, in key order. */
  method SortedPhotos(byBase: map<string, Capture>) returns (photos: seq<Photo>)
    ensures IsListingOf(photos, byBase)
  {
    hide Lex.Sort, Lex.Less;
    var todo := byBase.Keys;
    var bases: seq<string> := [];
    while todo != {}
      invariant todo <= byBase.Keys
      invariant forall b :: b in bases <==> b in byBase && b !in todo && byBase[b].jpeg.Some?
      invariant forall i, j :: 0 <= i < j < |bases| ==> bases[i] != bases[j]
      decreases |todo|
    {
      var b :| b in todo;
      todo := todo - {b};
      if byBase[b].jpeg.Some? {
        bases := bases + [b];
      }
    }
    var sorted := Lex.Sort(bases);
    Lex.SortAscends(bases);
    forall b
      ensures b in sorted <==> b in bases
    {
      Lex.SortMembers(bases, b);
    }
    photos := [];
    var i := 0;
    while i < |sorted|
      invariant 0 <= i <= |sorted| && |photos| == i
      invariant forall j :: 0 <= j < |sorted| ==> sorted[j] in byBase && byBase[sorted[j]].jpeg.Some?
      invariant forall j :: 0 <= j < i ==> photos[j] == ToPhoto(sorted[j], byBase[sorted[j]])
    {
      photos := photos + [ToPhoto(sorted[i], byBase[sorted[i]])];
      i := i + 1;
    }
    forall b | b in byBase && byBase[b].jpeg.Some?
      ensures ToPhoto(b, byBase[b]) in photos
    {
      assert b in sorted;
      var j :| 0 <= j < |sorted| && sorted[j] == b;
      assert photos[j] == ToPhoto(b, byBase[b]);
    }
  }

  /** A listed photo is a base with its last JPEG and its last RAW; every base with a
      JPEG is listed. */
  lemma {:induction false} ListedPhotos(photos: seq<Photo>, objs: seq<ObjectRef>, base: string)
    requires IsListingOf(photos, Paired(objs))
    ensures forall i :: 0 <= i < |photos| && photos[i].keyBase == base ==>
              LastListed(objs, base, Jpeg, Some(photos[i].jpeg)) && LastListed(objs, base, Raw, photos[i].raf)
    ensures (exists i :: 0 <= i < |photos| && photos[i].keyBase == base) <==> exists i :: 0 <= i < |objs| && Matches(objs[i], base, Jpeg)
  {
    hide LastListed, Matches, Lex.Less, DirOf, NameOf, HasKept, Paired;
    PairedIsLast(objs, base);
    var m := Paired(objs);
    LastIsThere(objs, base, Jpeg, if base in m then m[base].jpeg else None);
    PhotosOfPairs(photos, m, base);
  }

  lemma {:induction false} PhotosOfPairs(photos: seq<Photo>, m: map<string, Capture>, base: string)
    requires IsListingOf(photos, m)
    ensures forall i :: 0 <= i < |photos| && photos[i].keyBase == base ==>
              base in m && m[base].jpeg == Some(photos[i].jpeg) && photos[i].raf == m[base].raf
    ensures (exists i :: 0 <= i < |photos| && photos[i].keyBase == base) <==> base in m && m[base].jpeg.Some?
  {
    hide Lex.Less, DirOf, NameOf;
    if base in m && m[base].jpeg.Some? {
      var i :| 0 <= i < |photos| && photos[i] == ToPhoto(base, m[base]);
    }
  }

  lemma LastIsThere(objs: seq<ObjectRef>, base: string, kind: Kind, found: Option<ObjectRef>)
    requires LastListed(objs, base, kind, found)
    ensures found.Some? <==> exists i :: 0 <= i < |objs| && Matches(objs[i], base, kind)
  {
    hide Matches;
  }

  /** One complete listing, or the error of the first page that failed. The
      second result holds every key base seen, RAW-only ones included. */
  method ListPhotos(pages: seq<Page>) returns (r: Result<(seq<Photo>, set<string>), string>)
    ensures r.Err? <==> exists i :: 0 <= i < |pages| && pages[i].Err?
    ensures r.Ok? ==> IsListingOf(r.value.0, Paired(Objects(pages))) && r.value.1 == Paired(Objects(pages)).Keys
  {
    hide Kept, KindOf, KeyBase, IsListingOf, Paired;
    var byBase: map<string, Capture> := map[];
    PairedNothing();
    var n := 0;
    while n < |pages|
      invariant 0 <= n <= |pages|
      invariant forall i :: 0 <= i < n ==> pages[i].Ok?
      invariant byBase == Paired(Objects(pages[..n]))
    {
      if pages[n].Err? {
        return Err("list objects: " + pages[n].error);
      }
      var contents := pages[n].value;
      ghost var before := Objects(pages[..n]);
      var k := 0;
      assert before + contents[..0] == before;
      while k < |contents|
        invariant 0 <= k <= |contents|
        invariant byBase == Paired(before + contents[..k])
      {
        var obj := contents[k];
        PairedAppend(before + contents[..k], obj);
        assert before + contents[..k + 1] == (before + contents[..k]) + [obj];
        if Kept(obj.key) {
          var base := KeyBase(obj.key);
          var p := if base in byBase then byBase[base] else Capture(None, None);
          if KindOf(obj.key) == Jpeg {
            p := p.(jpeg := Some(obj));
          } else {
            p := p.(raf := Some(obj));
          }
          byBase := byBase[base := p];
        }
        k := k + 1;
      }
      assert contents[..k] == contents;
      ObjectsSplit(pages, n);
      n := n + 1;
    }
    assert pages[..n] == pages;

    var photos := SortedPhotos(byBase);
    return Ok((photos, byBase.Keys));
  }
}
