/** The thumbnail file of a key base as the program names it: a joined path is
    cleaned, so empty path elements disappear (catalog/catalog.go). The path of
    `CatalogStore` is this one on bases without empty elements; here is when two
    bases share a file. Key bases of a listing hold no "." or ".." before the
    last slash. */
module ThumbPaths {
  import CatalogStore
  import opened Listing

  const EXT := ".jpg"

  /** The elements of the file's path below the thumbnail directory. */
  function Elements(keyBase: string): seq<string> {
    NonEmpty(Segments(keyBase + EXT, ""))
  }

  function CleanThumbPath(keyBase: string): string {
    Slashed(["thumbs"] + Elements(keyBase))
  }

  // ---- Paths and their elements ----

  lemma {:induction false} Rejoined(s: string, current: string)
    ensures Segments(s, current) != [] && Slashed(Segments(s, current)) == current + s
  {
    if s != [] {
      if s[0] == '/' {
        Rejoined(s[1..], "");
        assert Segments(s, current)[1..] == Segments(s[1..], "");
        assert current + "/" + s[1..] == current + s;
      } else {
        Rejoined(s[1..], current + [s[0]]);
      }
    }
  }

  predicate NoSlash(segments: seq<string>) {
    forall i :: 0 <= i < |segments| ==> '/' !in segments[i]
  }

  lemma {:induction false} SegmentsHaveNoSlash(s: string, current: string)
    requires '/' !in current
    ensures NoSlash(Segments(s, current))
  {
    if s != [] {
      if s[0] == '/' {
        SegmentsHaveNoSlash(s[1..], "");
      } else {
        SegmentsHaveNoSlash(s[1..], current + [s[0]]);
      }
    }
  }

  lemma {:induction false} NonEmptyIsPart(segments: seq<string>)
    requires NoSlash(segments)
    ensures NoSlash(NonEmpty(segments))
    ensures "" !in segments ==> NonEmpty(segments) == segments
  {
    if segments != [] {
      NonEmptyIsPart(segments[1..]);
    }
  }

  /** Reading an element up to the slash after it, or to the end. */
  lemma {:induction false} ReadElement(e: string, rest: string, current: string)
    requires '/' !in e
    ensures Segments(e + rest, current) == Segments(rest, current + e)
  {
    if e == "" {
      assert e + rest == rest && current + e == current;
    } else {
      assert (e + rest)[1..] == e[1..] + rest;
      ReadElement(e[1..], rest, current + [e[0]]);
      assert current + [e[0]] + e[1..] == current + e;
    }
  }

  /** An element and what follows its slash. */
  lemma ReadSlash(e: string, rest: string)
    requires '/' !in e
    ensures Segments(e + ("/" + rest), "") == [e] + Segments(rest, "")
  {
    ReadElement(e, "/" + rest, "");
    assert "" + e == e && ("/" + rest)[1..] == rest;
  }

  lemma ReadLast(e: string)
    requires '/' !in e
    ensures Segments(e, "") == [e]
  {
    ReadElement(e, "", "");
    assert e + "" == e && "" + e == e;
  }

  lemma SlashedMore(segments: seq<string>)
    requires |segments| > 1
    ensures Slashed(segments) == segments[0] + ("/" + Slashed(segments[1..]))
  {
  }

  lemma {:induction false} SegmentsOfSlashed(segments: seq<string>)
    requires segments != [] && NoSlash(segments)
    ensures Segments(Slashed(segments), "") == segments
  {
    hide Segments;
    if |segments| == 1 {
      ReadLast(segments[0]);
    } else {
      hide Slashed;
      SlashedMore(segments);
      ReadSlash(segments[0], Slashed(segments[1..]));
      SegmentsOfSlashed(segments[1..]);
    }
  }

  // ---- Shared thumbnails ----

  /** On a base without empty elements the program's path is the one of the model. */
  lemma CleanIsThumbPath(keyBase: string)
    requires "" !in Segments(keyBase + EXT, "")
    ensures CleanThumbPath(keyBase) == CatalogStore.ThumbPath(keyBase)
  {
    var segments := Segments(keyBase + EXT, "");
    SegmentsHaveNoSlash(keyBase + EXT, "");
    NonEmptyIsPart(segments);
    Rejoined(keyBase + EXT, "");
    assert (["thumbs"] + segments)[1..] == segments;
    assert "thumbs" + "/" + (keyBase + EXT) == "thumbs/" + keyBase + ".jpg";
  }

  /** Two bases share a thumbnail exactly when they differ in empty elements only. */
  lemma SharedExactly(a: string, b: string)
    ensures CleanThumbPath(a) == CleanThumbPath(b) <==> Elements(a) == Elements(b)
  {
    Below(a);
    Below(b);
    assert (["thumbs"] + Elements(a))[1..] == Elements(a);
    assert (["thumbs"] + Elements(b))[1..] == Elements(b);
  }

  lemma Below(keyBase: string)
    ensures Segments(CleanThumbPath(keyBase), "") == ["thumbs"] + Elements(keyBase)
  {
    SegmentsHaveNoSlash(keyBase + EXT, "");
    NonEmptyIsPart(Segments(keyBase + EXT, ""));
    SegmentsOfSlashed(["thumbs"] + Elements(keyBase));
  }

  /** Doubling a slash changes the base and not the file. */
  lemma {:induction false} DoubledSlashShares(p: string, q: string, current: string)
    ensures NonEmpty(Segments(p + "/" + q, current)) == NonEmpty(Segments(p + "//" + q, current))
  {
    if p == "" {
      assert p + "/" + q == "/" + q && p + "//" + q == "/" + ("/" + q);
      assert ("/" + q)[1..] == q && ("/" + ("/" + q))[1..] == "/" + q;
      assert Segments(q, "") == Segments(("/" + q)[1..], "");
    } else {
      assert (p + "/" + q)[1..] == p[1..] + "/" + q && (p + "//" + q)[1..] == p[1..] + "//" + q;
      if p[0] == '/' {
        DoubledSlashShares(p[1..], q, "");
      } else {
        DoubledSlashShares(p[1..], q, current + [p[0]]);
      }
    }
  }

  lemma SameElements(p: string, q: string)
    ensures Elements(p + "/" + q) == Elements(p + "//" + q)
  {
    DoubledSlashShares(p, q + EXT, "");
    assert p + "/" + q + EXT == p + "/" + (q + EXT) && p + "//" + q + EXT == p + "//" + (q + EXT);
  }

  /** So every base with a slash shares its thumbnail with another one. */
  lemma SharedByDoubling(p: string, q: string)
    ensures p + "/" + q != p + "//" + q && CleanThumbPath(p + "/" + q) == CleanThumbPath(p + "//" + q)
  {
    hide Elements, CleanThumbPath;
    assert |p + "/" + q| < |p + "//" + q|;
    SameElements(p, q);
    SharedExactly(p + "/" + q, p + "//" + q);
  }

  // ---- Folder and name ----

  /** Folder and name put together again give the base, as long as it has no empty
      element. */
  lemma FolderAndName(base: string)
    requires base != "" && "" !in Segments(base, "")
    ensures base == (if DirOf(base) == "" then NameOf(base) else DirOf(base) + "/" + NameOf(base))
  {
    var segments := Segments(base, "");
    Rejoined(base, "");
    SegmentsHaveNoSlash(base, "");
    NonEmptyIsPart(segments);
    var n := |segments| - 1;
    NonEmptyIsPart(segments[..n]);
    assert segments == segments[..n] + [segments[n]];
    if n > 0 {
      SlashedLast(segments[..n], segments[n]);
    }
  }

  /** The names of bases that have no element to take one from. */
  lemma NamelessBases(n: nat)
    ensures NameOf("") == "." && DirOf("") == "" && NameOf(seq(n + 1, _ => '/')) == "/"
  {
    AllSlashes(n + 1);
    assert Segments("", "") == [""];
    assert NonEmpty([""]) == [];
  }

  lemma {:induction false} AllSlashes(n: nat)
    ensures NonEmpty(Segments(seq(n, _ => '/'), "")) == []
  {
    var s := seq(n, _ => '/');
    if n > 0 {
      AllSlashes(n - 1);
      assert s[1..] == seq(n - 1, _ => '/');
    }
  }

  lemma {:induction false} SlashedLast(segments: seq<string>, last: string)
    requires segments != [] && "" !in segments
    ensures Slashed(segments + [last]) == Slashed(segments) + "/" + last && Slashed(segments) != ""
  {
    assert (segments + [last])[1..] == segments[1..] + [last];
    if |segments| > 1 {
      SlashedLast(segments[1..], last);
    }
  }
}
