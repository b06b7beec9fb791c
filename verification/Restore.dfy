/** Restoring a backup over the live catalog (`RestoreBackup`, `verifyCatalogDB`
    and `drainOldDB` of catalog/backup.go), as file-system steps. The object keeps
    the disk after every step: a crash leaves the disk as it was at one of them. */
module Restore {
  import opened Wrappers

  const SCHEMA_VERSION := 3

  datatype Path = Db | DbWal | DbShm | Aside | Tmp | TmpWal | TmpShm

  /** A database file, or the frames of a write-ahead log, as pages. */
  type Pages = map<nat, nat>

  type Disk = map<Path, Pages>

  /** What the checks of `verifyCatalogDB` find in a file. */
  datatype Health = Health(integrity: string, version: int, hasPhotos: bool)

  predicate Verified(h: Health) {
    h.integrity == "ok" && h.version <= SCHEMA_VERSION && h.hasPhotos
  }

  /** The checkpoint of the old catalog: it folds frames of the log into the main
      file. An unreadable catalog is passed over, whatever was folded by then. */
  datatype Drain = Drained | Busy(folded: set<nat>) | Unreadable(folded: set<nat>)

  datatype Faults = Faults(
    statFails: bool, mkdirFails: bool, openFails: bool, createFails: bool, truncated: Option<Pages>, closeFails: bool,
    verifyIoFails: bool, sidecarsLeft: bool, drain: Drain, renameOldFails: bool,
    removeWalFails: bool, removeShmFails: bool, renameNewFails: bool, removeTempFails: bool)

  datatype Failure = Exists | Mkdir | Open | Create | Download | Close | Unverified | InUse | RenameOld | RenameNew

  function LogOf(d: Disk): Pages {
    if DbWal in d then d[DbWal] else map[]
  }

  /** What a reader of the catalog sees: the main file under its log. */
  function Logical(d: Disk): Option<Pages> {
    if Db in d then Some(d[Db] + LogOf(d)) else None
  }

  function Folded(main: Pages, log: Pages, which: set<nat>): Pages {
    main + map p | p in log && p in which :: log[p]
  }

  /** The main file the restore found, with or without frames of its log folded
      in: nothing of it is lost as long as its log is kept too. */
  ghost predicate IsOldMain(pages: Pages, start: Disk) {
    Db in start && pages + LogOf(start) == start[Db] + LogOf(start)
  }

  ghost predicate OldAt(p: Path, d: Disk, start: Disk) {
    p in d && IsOldMain(d[p], start)
  }

  /** What holds of the disk at any moment: the catalog that was found is at its
      place, reading as before, or parked aside as the checkpoint left it; and only
      it or a verified download is ever in place. */
  ghost predicate Safe(d: Disk, start: Disk, found: bool, drain: Drain, body: Pages, health: Pages -> Health) {
    && (found ==> (OldAt(Db, d, start) && Logical(d) == Logical(start)) || Parked(d, start, drain))
    && InPlace(d, start, body, health)
  }

  /** The main file as a checkpoint leaves it. */
  function AfterDrain(drain: Drain, main: Pages, log: Pages): Pages {
    match drain
    case Drained => main + log
    case Busy(folded) => Folded(main, log, folded)
    case Unreadable(folded) => Folded(main, log, folded)
  }

  ghost predicate Parked(d: Disk, start: Disk, drain: Drain) {
    Db in start && Aside in d && d[Aside] == AfterDrain(drain, start[Db], LogOf(start))
  }

  ghost predicate InPlace(d: Disk, start: Disk, body: Pages, health: Pages -> Health) {
    Db in d ==> OldAt(Db, d, start) || (d[Db] == body && Verified(health(body)))
  }

  ghost predicate AllSafe(past: seq<Disk>, from: nat, start: Disk, found: bool, drain: Drain, body: Pages, health: Pages -> Health) {
    forall i :: from <= i < |past| ==> Safe(past[i], start, found, drain, body, health)
  }

  /** Nothing of the catalog differs. */
  ghost predicate SameCatalog(d: Disk, e: Disk) {
    && (Db in d <==> Db in e) && (Db in d ==> d[Db] == e[Db])
    && LogOf(d) == LogOf(e)
    && (Aside in d <==> Aside in e) && (Aside in d ==> d[Aside] == e[Aside])
  }

  ghost predicate SameAside(d: Disk, e: Disk) {
    (Aside in d <==> Aside in e) && (Aside in d ==> d[Aside] == e[Aside])
  }

  /** The catalog is at its place and reads as it did. */
  ghost predicate Untouched(d: Disk, start: Disk) {
    && (Db in d <==> Db in start)
    && (Db in d ==> OldAt(Db, d, start))
    && Logical(d) == Logical(start)
  }

  /** Untouched so far, or parked aside with nothing in place. */
  ghost predicate Kept(d: Disk, start: Disk, found: bool, drain: Drain) {
    Untouched(d, start) || (found && Db !in d && Parked(d, start, drain))
  }

  ghost predicate AllKept(past: seq<Disk>, from: nat, start: Disk, found: bool, drain: Drain) {
    forall i :: from <= i < |past| ==> Kept(past[i], start, found, drain)
  }

  ghost predicate AllSame(past: seq<Disk>, from: nat, start: Disk) {
    forall i :: from <= i < |past| ==> SameCatalog(past[i], start)
  }

  // ---- How a restore ends, as a function of what it meets ----

  function Cleaned(d: Disk, f: Faults): Disk {
    if f.removeTempFails then d else d - {Tmp, TmpWal, TmpShm}
  }

  function DownloadEnd(d: Disk, body: Pages, f: Faults): (Option<Failure>, Disk) {
    if f.mkdirFails then (Some(Mkdir), d)
    else if f.openFails then (Some(Open), d)
    else if f.createFails then (Some(Create), d)
    else
      var e := d[Tmp := if f.truncated.Some? then f.truncated.value else body];
      if f.truncated.Some? then (Some(Download), Cleaned(e, f))
      else if f.closeFails then (Some(Close), Cleaned(e, f))
      else (None, e)
  }

  function FetchEnd(d: Disk, body: Pages, health: Pages -> Health, f: Faults): (Option<Failure>, Disk) {
    var (err, e) := DownloadEnd(d, body, f);
    if err.Some? then (err, e)
    else
      var g := if f.sidecarsLeft then e[TmpWal := map[]][TmpShm := map[]] else e;
      if f.verifyIoFails || !Verified(health(body)) then (Some(Unverified), Cleaned(g, f)) else (None, g)
  }

  function DrainEnd(d: Disk, drain: Drain): Disk
    requires Db in d
  {
    var e := d[Db := AfterDrain(drain, d[Db], LogOf(d))];
    if drain.Drained? && DbWal in d then e[DbWal := map[]] else e
  }

  function ParkEnd(d: Disk, f: Faults): (Option<Failure>, Disk)
    requires Db in d
  {
    var e := DrainEnd(d, f.drain);
    if f.drain.Busy? then (Some(InUse), Cleaned(e, f))
    else if f.renameOldFails then (Some(RenameOld), Cleaned(e, f))
    else (None, (e - {Db})[Aside := e[Db]])
  }

  function WithoutSidecarFiles(d: Disk, f: Faults): Disk {
    var e := if f.removeWalFails then d else d - {DbWal};
    if f.removeShmFails then e else e - {DbShm}
  }

  function InstallEnd(d: Disk, f: Faults): (Option<Failure>, Disk)
    requires Tmp in d
  {
    var e := WithoutSidecarFiles(d, f);
    if f.renameNewFails then (Some(RenameNew), Cleaned(e, f)) else (None, (e - {Tmp})[Db := e[Tmp]])
  }

  function RestoreEnd(d: Disk, body: Pages, health: Pages -> Health, force: bool, f: Faults): (Option<Failure>, Disk) {
    var found := Db in d && !f.statFails;
    if found && !force then (Some(Exists), d)
    else
      var (err, e) := FetchEnd(d, body, health, f);
      if err.Some? then (err, e)
      else if found then
        var (err2, g) := ParkEnd(e, f);
        if err2.Some? then (err2, g) else InstallEnd(g, f)
      else InstallEnd(e, f)
  }

  class FileSystem {
    var files: Disk

    /** Every disk there has been, the present one last. */
    ghost var past: seq<Disk>

    ghost predicate Valid()
      reads this
    {
      past != [] && past[|past| - 1] == files
    }

    constructor (start: Disk)
      ensures Valid() && files == start && past == [start]
    {
      files, past := start, [start];
    }

    method Write(p: Path, data: Pages)
      requires Valid()
      modifies this
      ensures Valid() && files == old(files)[p := data] && past == old(past) + [files]
    {
      files := files[p := data];
      past := past + [files];
    }

    method WriteTemp(p: Path, data: Pages)
      requires Valid() && p in [Tmp, TmpWal, TmpShm]
      modifies this
      ensures Valid() && files == old(files)[p := data] && past == old(past) + [files]
      ensures SameCatalog(files, old(files))
    {
      Write(p, data);
    }

    /** A removal may fail: its error is ignored. */
    method Remove(p: Path, fails: bool)
      requires Valid()
      modifies this
      ensures Valid() && files == (if fails then old(files) else old(files) - {p}) && past == old(past) + [files]
    {
      if !fails {
        files := files - {p};
      }
      past := past + [files];
    }

    method Rename(a: Path, b: Path, fails: bool) returns (ok: bool)
      requires Valid() && a in files && a != b
      modifies this
      ensures Valid() && ok == !fails && past == old(past) + [files]
      ensures files == if fails then old(files) else (old(files) - {a})[b := old(files)[a]]
    {
      if !fails {
        files := (files - {a})[b := files[a]];
      }
      past := past + [files];
      ok := !fails;
    }

    /** The temporary file and its sidecars. */
    method RemoveTemp(fails: bool)
      requires Valid()
      modifies this
      ensures Valid() && files == if fails then old(files) else old(files) - {Tmp, TmpWal, TmpShm}
      ensures |past| > |old(past)| && past[..|old(past)|] == old(past)
      ensures AllSame(past, |old(past)|, old(files)) && SameCatalog(files, old(files))
    {
      Remove(Tmp, fails);
      Remove(TmpWal, fails);
      Remove(TmpShm, fails);
    }

    /** The download, into a temporary file next to the catalog. */
    method DownloadTemp(body: Pages, f: Faults) returns (err: Option<Failure>)
      requires Valid()
      modifies this
      ensures Valid() && |past| >= |old(past)| && past[..|old(past)|] == old(past)
      ensures AllSame(past, |old(past)|, old(files)) && SameCatalog(files, old(files))
      ensures err.None? ==> Tmp in files && files[Tmp] == body
      ensures err.Some? ==> err.value in [Mkdir, Open, Create, Download, Close]
      ensures (err, files) == DownloadEnd(old(files), body, f)
    {
      hide SameCatalog;
      ghost var start, from := files, |past|;
      SameHere(start);
      if f.mkdirFails {
        return Some(Mkdir);
      }
      if f.openFails {
        return Some(Open);
      }
      if f.createFails {
        return Some(Create);
      }
      WriteTemp(Tmp, map[]);
      ghost var created, p1 := files, past;
      WriteTemp(Tmp, if f.truncated.Some? then f.truncated.value else body);
      MoreSame(p1, past, from, created, start);
      assert files == start[Tmp := if f.truncated.Some? then f.truncated.value else body];
      if f.truncated.Some? || f.closeFails {
        ghost var written, p2 := files, past;
        RemoveTemp(f.removeTempFails);
        MoreSame(p2, past, from, written, start);
        return Some(if f.truncated.Some? then Download else Close);
      }
      return None;
    }

    /** Up to the moment the download is verified: the catalog is not touched. */
    method Fetch(body: Pages, health: Pages -> Health, f: Faults) returns (err: Option<Failure>)
      requires Valid()
      modifies this
      ensures Valid() && |past| >= |old(past)| && past[..|old(past)|] == old(past)
      ensures AllSame(past, |old(past)|, old(files)) && SameCatalog(files, old(files))
      ensures err.None? ==> Tmp in files && files[Tmp] == body && Verified(health(body))
      ensures err.Some? ==> err.value in [Mkdir, Open, Create, Download, Close, Unverified]
      ensures (err, files) == FetchEnd(old(files), body, health, f)
    {
      hide SameCatalog;
      ghost var start, from := files, |past|;
      err := DownloadTemp(body, f);
      if err.Some? {
        return;
      }
      if f.sidecarsLeft {
        ghost var d0, p0 := files, past;
        WriteTemp(TmpWal, map[]);
        MoreSame(p0, past, from, d0, start);
        ghost var d1, p1 := files, past;
        WriteTemp(TmpShm, map[]);
        MoreSame(p1, past, from, d1, start);
      }
      if f.verifyIoFails || !Verified(health(body)) {
        ghost var d2, p2 := files, past;
        RemoveTemp(f.removeTempFails);
        MoreSame(p2, past, from, d2, start);
        return Some(Unverified);
      }
      return None;
    }

    /** The checkpoint: frames go into the main file, and the log is emptied only
        when all have. */
    method DrainOld(drain: Drain, ghost start: Disk) returns (busy: bool)
      requires Valid() && Db in files && SameCatalog(files, start)
      modifies this
      ensures Valid() && busy == drain.Busy?
      ensures |past| > |old(past)| && past[..|old(past)|] == old(past)
      ensures forall i :: |old(past)| <= i < |past| ==> Untouched(past[i], start)
      ensures Db in files && Untouched(files, start) && Db in start && files[Db] == AfterDrain(drain, start[Db], LogOf(start))
      ensures files == DrainEnd(old(files), drain)
    {
      var main, log := files[Db], LogOf(files);
      match drain {
        case Drained =>
          FoldAll(main, log);
          Write(Db, main + log);
          if DbWal in files {
            Write(DbWal, map[]);
          }
          busy := false;
        case Busy(folded) =>
          FoldSome(main, log, folded);
          Write(Db, Folded(main, log, folded));
          busy := true;
        case Unreadable(folded) =>
          FoldSome(main, log, folded);
          Write(Db, Folded(main, log, folded));
          busy := false;
      }
    }

    /** Parking the catalog that was found. */
    method ParkOld(f: Faults, ghost start: Disk) returns (err: Option<Failure>)
      requires Valid() && Db in files && Tmp in files && SameCatalog(files, start)
      modifies this
      ensures Valid() && |past| > |old(past)| && past[..|old(past)|] == old(past)
      ensures AllKept(past, |old(past)|, start, true, f.drain)
      ensures err.Some? ==> err.value in [InUse, RenameOld] && Untouched(files, start)
      ensures err.None? ==> Db !in files && Parked(files, start, f.drain) && Tmp in files && files[Tmp] == old(files)[Tmp]
      ensures (err, files) == ParkEnd(old(files), f)
    {
      hide Untouched, SameCatalog;
      var busy := DrainOld(f.drain, start);
      ghost var drained, before := files, |past|;
      assert AllKept(past, |old(past)|, start, true, f.drain);
      if busy {
        RemoveTemp(f.removeTempFails);
        SameUntouched(past, before, drained, start);
        return Some(InUse);
      }
      UntouchedMain(drained, start);
      var moved := Rename(Db, Aside, f.renameOldFails);
      if !moved {
        RemoveTemp(f.removeTempFails);
        SameUntouched(past, before + 1, drained, start);
        return Some(RenameOld);
      }
      return None;
    }

    /** A stale log next to the download would be recovered into it. */
    method RemoveSidecars(ghost start: Disk, ghost found: bool, ghost body: Pages, ghost health: Pages -> Health, f: Faults)
      requires Valid() && Ready(files, start, found, f.drain)
      modifies this
      ensures Valid() && |past| == |old(past)| + 2 && past[..|old(past)|] == old(past)
      ensures AllSafe(past, |old(past)|, start, found, f.drain, body, health)
      ensures Ready(files, start, found, f.drain) && (found ==> Parked(files, start, f.drain))
      ensures AllReady(past, |old(past)|, |past|, start, found, f.drain)
      ensures (Tmp in files <==> Tmp in old(files)) && (Tmp in files ==> files[Tmp] == old(files)[Tmp])
      ensures files == WithoutSidecarFiles(old(files), f)
      ensures SameAside(files, old(files))
      ensures (DbWal in files ==> f.removeWalFails) && (DbShm in files ==> f.removeShmFails)
    {
      hide Parked, Ready, Safe;
      Remove(DbWal, f.removeWalFails);
      WithoutSidecars(old(files), files, start, found, f.drain, body, health);
      ghost var noLog := files;
      Remove(DbShm, f.removeShmFails);
      WithoutSidecars(noLog, files, start, found, f.drain, body, health);
    }

    /** The sidecars of the old catalog go, and the download takes its place. */
    method Install(ghost start: Disk, found: bool, body: Pages, ghost health: Pages -> Health, f: Faults) returns (err: Option<Failure>)
      requires Valid() && Tmp in files && files[Tmp] == body && Verified(health(body))
      requires if found then Db !in files && Parked(files, start, f.drain) else Untouched(files, start)
      modifies this
      ensures Valid() && |past| > |old(past)| && past[..|old(past)|] == old(past)
      ensures AllSafe(past, |old(past)|, start, found, f.drain, body, health)
      ensures err.None? ==> Db in files && files[Db] == body
      ensures err.None? ==> (DbWal in files ==> f.removeWalFails) && (DbShm in files ==> f.removeShmFails)
      ensures err.Some? ==> err == Some(RenameNew)
      ensures found ==> Parked(files, start, f.drain)
      ensures !found ==> SameAside(files, old(files))
      ensures AllReady(past, |old(past)|, if err.None? then |past| - 1 else |past|, start, found, f.drain)
      ensures (err, files) == InstallEnd(old(files), f)
    {
      hide Parked, Untouched, SameCatalog, Ready, Safe;
      BeforeInstall(files, start, found, f.drain);
      RemoveSidecars(start, found, body, health, f);
      var installed := Rename(Tmp, Db, f.renameNewFails);
      Installed(past[|past| - 2], files, start, found, f.drain, body, health);
      if !installed {
        ghost var waiting, before := files, |past|;
        RemoveTemp(f.removeTempFails);
        SameReady(past, before, waiting, start, found, f.drain, body, health);
        return Some(RenameNew);
      }
      return None;
    }

    /** The restore. `found` says whether the catalog was seen: any error of the
        first look counts as "no catalog". */
    method RestoreBackup(body: Pages, health: Pages -> Health, force: bool, f: Faults) returns (err: Option<Failure>, found: bool)
      requires Valid()
      modifies this
      ensures Valid() && found == (Db in old(files) && !f.statFails)
      ensures |past| >= |old(past)| && past[..|old(past)|] == old(past)
      ensures AllSafe(past, |old(past)|, old(files), found, f.drain, body, health)
      ensures err == Some(Exists) <==> found && !force
      ensures err == Some(Exists) ==> files == old(files)
      ensures err.Some? && err.value != RenameNew ==> Logical(files) == Logical(old(files))
      ensures err.None? ==> Db in files && files[Db] == body && Verified(health(body))
      ensures err.None? ==> (DbWal in files <==> DbWal in old(files) && f.removeWalFails)
      ensures err.None? ==> (DbShm in files <==> DbShm in old(files) && f.removeShmFails)
      ensures (err.None? || err == Some(RenameNew)) && found ==> Parked(files, old(files), f.drain)
      ensures !found ==> SameAside(files, old(files))
      ensures (err, files) == RestoreEnd(old(files), body, health, force, f)
      ensures Db in old(files) ==>
        (AllSurvive(past, |old(past)|, old(files)) <==> err.Some? || !f.statFails || Coincides(old(files), body))
    {
      hide Safe, Untouched, SameCatalog, Parked, InPlace, IsOldMain, OldAt, Logical, LogOf, AllSafe, StaysInPlace, AllReady, AllSurvive, Coincides,
           FetchEnd, ParkEnd, InstallEnd;
      ghost var start, from := files, |past|;
      found := Db in files && !f.statFails;
      if found && !force {
        NothingHappened(past, start, found, f.drain, body, health);
        SafeSurvives(past, from, start, f.drain, body, health);
        return Some(Exists), found;
      }
      err := Fetch(body, health, f);
      SameFromStart(past, from, files, start);
      SameDb(files, start);
      KeptIsSafe(past, from, start, found, f.drain, body, health);
      if Db in start {
        UntouchedStays(past, from, start);
        StaySurvives(past, from, |past|, start);
      }
      if err.Some? {
        UntouchedReads(files, start);
        return;
      }
      ghost var fetched := past;
      if found {
        err := ParkOld(f, start);
        KeptIsSafe(past, |fetched|, start, found, f.drain, body, health);
        MoreSafe(fetched, past, from, start, found, f.drain, body, health);
        SafeSurvives(past, from, start, f.drain, body, health);
        if err.Some? {
          UntouchedReads(files, start);
          return;
        }
      }
      ghost var parked := past;
      err := Install(start, found, body, health, f);
      ReadsDownloadExactly(start, body, health, force, f);
      MoreSafe(parked, past, from, start, found, f.drain, body, health);
      if found {
        SafeSurvives(past, from, start, f.drain, body, health);
      } else if Db in start {
        ghost var to := if err.None? then |past| - 1 else |past|;
        ReadyStays(past, |parked|, to, start, f.drain);
        StaysLonger(parked, past, from, to, start);
        StaySurvives(past, from, to, start);
        if err.None? {
          LastDecides(past, from, start, body);
        }
      }
    }
  }

  // ---- The main file that was in place ----

  /** The main file that was in place is in place or aside. */
  ghost predicate Survives(d: Disk, start: Disk) {
    OldAt(Db, d, start) || OldAt(Aside, d, start)
  }

  ghost predicate AllSurvive(past: seq<Disk>, from: nat, start: Disk) {
    forall i :: from <= i < |past| ==> Survives(past[i], start)
  }

  /** The download, or a file parked earlier, happens to be that main file. */
  ghost predicate Coincides(start: Disk, body: Pages) {
    IsOldMain(body, start) || OldAt(Aside, start, start)
  }

  lemma StaySurvives(past: seq<Disk>, from: nat, to: nat, start: Disk)
    requires to <= |past| && StaysInPlace(past, from, to, start)
    ensures forall i :: from <= i < to ==> Survives(past[i], start)
    ensures to == |past| ==> AllSurvive(past, from, start)
  {
    hide OldAt;
  }

  lemma SafeSurvives(past: seq<Disk>, from: nat, start: Disk, drain: Drain, body: Pages, health: Pages -> Health)
    requires AllSafe(past, from, start, true, drain, body, health)
    ensures AllSurvive(past, from, start)
  {
    hide Safe, Survives;
    forall i | from <= i < |past|
      ensures Survives(past[i], start)
    {
      MainSurvives(past[i], start, drain, body, health);
    }
  }

  /** When only the last disk can have lost it. */
  lemma LastDecides(past: seq<Disk>, from: nat, start: Disk, body: Pages)
    requires from < |past| && forall i :: from <= i < |past| - 1 ==> Survives(past[i], start)
    requires var d := past[|past| - 1]; Db in d && d[Db] == body && SameAside(d, start)
    ensures AllSurvive(past, from, start) <==> Coincides(start, body)
  {
    hide IsOldMain;
    var d := past[|past| - 1];
    assert Survives(d, start) <==> Coincides(start, body);
  }

  lemma NothingHappened(past: seq<Disk>, start: Disk, found: bool, drain: Drain, body: Pages, health: Pages -> Health)
    ensures AllSafe(past, |past|, start, found, drain, body, health)
  {
  }

  lemma FoldAll(main: Pages, log: Pages)
    ensures main + log + log == main + log && main + log + map[] == main + log
  {
  }

  lemma FoldSome(main: Pages, log: Pages, which: set<nat>)
    ensures Folded(main, log, which) + log == main + log
  {
  }

  /** Ready for the download: nothing in the way that could be lost. */
  ghost predicate Ready(d: Disk, start: Disk, found: bool, drain: Drain) {
    if found then Db !in d && Parked(d, start, drain)
    else (Db in d <==> Db in start) && (Db in d ==> OldAt(Db, d, start))
  }

  ghost predicate AllReady(past: seq<Disk>, from: nat, to: nat, start: Disk, found: bool, drain: Drain)
    requires to <= |past|
  {
    forall i :: from <= i < to ==> Ready(past[i], start, found, drain)
  }

  /** The catalog that was there is in place on each of these disks. */
  ghost predicate StaysInPlace(past: seq<Disk>, from: nat, to: nat, start: Disk)
    requires to <= |past|
  {
    forall i :: from <= i < to ==> OldAt(Db, past[i], start)
  }

  lemma ReadyStays(past: seq<Disk>, from: nat, to: nat, start: Disk, drain: Drain)
    requires to <= |past| && Db in start && AllReady(past, from, to, start, false, drain)
    ensures StaysInPlace(past, from, to, start)
  {
    hide IsOldMain;
  }

  lemma UntouchedStays(past: seq<Disk>, from: nat, start: Disk)
    requires Db in start && forall i :: from <= i < |past| ==> Untouched(past[i], start)
    ensures StaysInPlace(past, from, |past|, start)
  {
    hide IsOldMain;
  }

  lemma StaysLonger(a: seq<Disk>, b: seq<Disk>, from: nat, to: nat, start: Disk)
    requires a <= b && to <= |b| && StaysInPlace(a, from, |a|, start) && StaysInPlace(b, |a|, to, start)
    ensures StaysInPlace(b, from, to, start)
  {
    hide OldAt;
  }

  lemma BeforeInstall(d: Disk, start: Disk, found: bool, drain: Drain)
    requires if found then Db !in d && Parked(d, start, drain) else Untouched(d, start)
    ensures Ready(d, start, found, drain)
  {
    hide IsOldMain;
  }

  lemma WithoutSidecars(d: Disk, e: Disk, start: Disk, found: bool, drain: Drain, body: Pages, health: Pages -> Health)
    requires Ready(d, start, found, drain) && (e == d || e == d - {DbWal} || e == d - {DbShm})
    ensures Ready(e, start, found, drain) && Safe(e, start, found, drain, body, health)
    ensures found ==> Parked(e, start, drain)
  {
    hide IsOldMain;
  }

  /** The renaming of the download, done or not. */
  lemma Installed(d: Disk, e: Disk, start: Disk, found: bool, drain: Drain, body: Pages, health: Pages -> Health)
    requires Ready(d, start, found, drain) && Tmp in d && d[Tmp] == body && Verified(health(body))
    requires e == d || e == (d - {Tmp})[Db := d[Tmp]]
    ensures Safe(e, start, found, drain, body, health) && (found ==> Parked(e, start, drain))
    ensures e == d ==> Ready(e, start, found, drain)
  {
    hide IsOldMain;
  }

  lemma SameReady(past: seq<Disk>, from: nat, d: Disk, start: Disk, found: bool, drain: Drain, body: Pages, health: Pages -> Health)
    requires Ready(d, start, found, drain) && from < |past| && AllSame(past, from, d)
    ensures AllSafe(past, from, start, found, drain, body, health)
    ensures AllReady(past, from, |past|, start, found, drain)
    ensures found ==> Parked(past[|past| - 1], start, drain)
  {
    hide IsOldMain;
  }

  lemma SameHere(d: Disk)
    ensures SameCatalog(d, d)
  {
  }

  lemma MoreSame(a: seq<Disk>, b: seq<Disk>, from: nat, mid: Disk, start: Disk)
    requires AllSame(a, from, start) && a <= b && SameCatalog(mid, start) && AllSame(b, |a|, mid)
    ensures AllSame(b, from, start) && (|b| > |a| ==> SameCatalog(b[|b| - 1], start))
  {
  }

  lemma MoreSafe(a: seq<Disk>, b: seq<Disk>, from: nat, start: Disk, found: bool, drain: Drain, body: Pages, health: Pages -> Health)
    requires AllSafe(a, from, start, found, drain, body, health) && a <= b && AllSafe(b, |a|, start, found, drain, body, health)
    ensures AllSafe(b, from, start, found, drain, body, health)
  {
    hide Safe;
  }

  lemma SameUntouched(past: seq<Disk>, from: nat, e: Disk, start: Disk)
    requires Untouched(e, start) && AllSame(past, from, e)
    ensures forall i :: from <= i < |past| ==> Untouched(past[i], start)
  {
  }

  lemma SameFromStart(past: seq<Disk>, from: nat, d: Disk, start: Disk)
    requires AllSame(past, from, start) && SameCatalog(d, start)
    ensures (forall i :: from <= i < |past| ==> Untouched(past[i], start)) && Untouched(d, start)
  {
  }

  lemma UntouchedMain(d: Disk, start: Disk)
    requires Untouched(d, start) && Db in d
    ensures IsOldMain(d[Db], start)
  {
  }

  lemma UntouchedReads(d: Disk, start: Disk)
    ensures Untouched(d, start) ==> Logical(d) == Logical(start)
  {
  }

  lemma SameDb(d: Disk, start: Disk)
    requires SameCatalog(d, start)
    ensures (Db in d <==> Db in start) && SameAside(d, start)
  {
  }

  lemma KeptIsSafe(past: seq<Disk>, from: nat, start: Disk, found: bool, drain: Drain, body: Pages, health: Pages -> Health)
    requires AllKept(past, from, start, found, drain)
    requires found ==> Db in start
    ensures AllSafe(past, from, start, found, drain, body, health)
  {
    hide IsOldMain, Logical;
  }

  // ---- What a crash or the end leaves ----

  lemma ParkedKeepsMain(d: Disk, start: Disk, drain: Drain)
    requires Parked(d, start, drain)
    ensures OldAt(Aside, d, start)
  {
    var main, log := start[Db], LogOf(start);
    FoldAll(main, log);
    match drain
    case Drained =>
    case Busy(folded) => FoldSome(main, log, folded);
    case Unreadable(folded) => FoldSome(main, log, folded);
  }

  /** At every moment the main file that was found is in place or aside. */
  lemma MainSurvives(d: Disk, start: Disk, drain: Drain, body: Pages, health: Pages -> Health)
    requires Safe(d, start, true, drain, body, health)
    ensures Survives(d, start)
  {
    hide IsOldMain;
    if Parked(d, start, drain) {
      ParkedKeepsMain(d, start, drain);
    }
  }

  /** After a checkpoint that succeeded nothing of what a reader saw is lost, at
      whatever step the restore is cut off. */
  lemma NothingLost(d: Disk, start: Disk, body: Pages, health: Pages -> Health)
    requires Safe(d, start, true, Drained, body, health)
    ensures Logical(d) == Logical(start) || (Aside in d && Some(d[Aside]) == Logical(start))
  {
  }

  /** A catalog parked after a checkpoint that failed reads as before exactly
      when every frame that says something new had been folded in by then. */
  lemma FramesLost(d: Disk, start: Disk, folded: set<nat>)
    requires Parked(d, start, Unreadable(folded))
    ensures Some(d[Aside]) == Logical(start) <==>
      forall p :: p in LogOf(start) ==> p in folded || (p in start[Db] && start[Db][p] == LogOf(start)[p])
  {
    var main, log := start[Db], LogOf(start);
    var kept := Folded(main, log, folded);
    if forall p :: p in log ==> p in folded || (p in main && main[p] == log[p]) {
      assert kept == main + log;
    } else {
      var p :| p in log && p !in folded && !(p in main && main[p] == log[p]);
      assert (p in kept ==> kept[p] == main[p]) && (main + log)[p] == log[p];
      assert kept != main + log;
    }
  }

  // ---- Exactly when the restore keeps what it promises ----

  lemma FetchEndKeeps(d: Disk, body: Pages, health: Pages -> Health, f: Faults)
    ensures var (err, e) := FetchEnd(d, body, health, f);
      && SameCatalog(e, d) && (DbWal in e <==> DbWal in d) && (DbShm in e <==> DbShm in d)
      && (err.None? ==> Tmp in e && e[Tmp] == body)
      && err != Some(RenameNew)
  {
  }

  lemma ParkEndKeeps(d: Disk, f: Faults)
    requires Db in d && Tmp in d
    ensures var (err, e) := ParkEnd(d, f);
      && (err.Some? ==> Db in e && IsOldMain(e[Db], d) && Logical(e) == Logical(d) && err != Some(RenameNew))
      && (err.None? ==> Db !in e && Parked(e, d, f.drain) && Tmp in e && e[Tmp] == d[Tmp]
                        && (DbWal in e <==> DbWal in d) && (DbShm in e <==> DbShm in d)
                        && LogOf(e) == if f.drain.Drained? then map[] else LogOf(d))
  {
    FoldAll(d[Db], LogOf(d));
    if !f.drain.Drained? {
      FoldSome(d[Db], LogOf(d), f.drain.folded);
    }
  }

  lemma InstallEndKeeps(d: Disk, f: Faults)
    requires Tmp in d
    ensures var (err, e) := InstallEnd(d, f);
      && SameAside(e, d)
      && (DbWal in e <==> DbWal in d && f.removeWalFails) && (DbShm in e <==> DbShm in d && f.removeShmFails)
      && LogOf(e) == (if f.removeWalFails then LogOf(d) else map[])
      && (err.None? ==> Db in e && e[Db] == d[Tmp])
      && (err.Some? ==> err == Some(RenameNew) && (Db in e <==> Db in d) && (Db in e ==> e[Db] == d[Db]))
  {
  }

  /** The disk a restore ends with, part by part. */
  lemma RestoreEndParts(start: Disk, body: Pages, health: Pages -> Health, force: bool, f: Faults)
    ensures var (err, end) := RestoreEnd(start, body, health, force, f);
      var found := Db in start && !f.statFails;
      && (err.None? ==> Db in end && end[Db] == body
                        && (DbWal in end <==> DbWal in start && f.removeWalFails)
                        && (DbShm in end <==> DbShm in start && f.removeShmFails)
                        && LogOf(end) == if f.removeWalFails && !(found && f.drain.Drained?) then LogOf(start) else map[])
      && (err.Some? && err.value != RenameNew ==>
            (Db in end <==> Db in start) && (Db in start ==> IsOldMain(end[Db], start)) && Logical(end) == Logical(start))
      && (err == Some(RenameNew) && found ==> Db !in end)
      && (err == Some(RenameNew) && !found ==>
            (Db in end <==> Db in start) && (Db in end ==> end[Db] == start[Db])
            && LogOf(end) == if f.removeWalFails then LogOf(start) else map[])
      && (found && (err.None? || err == Some(RenameNew)) ==> Parked(end, start, f.drain))
      && (!found ==> SameAside(end, start))
      && (err.Some? && f.statFails && Db in start ==> Db in end && end[Db] == start[Db])
  {
    hide FetchEnd, ParkEnd, InstallEnd;
    var found := Db in start && !f.statFails;
    FetchEndKeeps(start, body, health, f);
    var (err, e) := FetchEnd(start, body, health, f);
    if err.None? {
      if found {
        ParkEndKeeps(e, f);
        var (err2, g) := ParkEnd(e, f);
        if err2.None? {
          InstallEndKeeps(g, f);
        }
      } else {
        InstallEndKeeps(e, f);
      }
    }
  }

  /** The main file that was in place is in place or aside when the restore ends,
      except exactly when it succeeds after a failed look and neither the download
      nor a file parked earlier happens to be that file. */
  lemma MainKeptExactly(start: Disk, body: Pages, health: Pages -> Health, force: bool, f: Faults)
    requires Db in start
    ensures var (err, end) := RestoreEnd(start, body, health, force, f);
      Survives(end, start) <==> err.Some? || !f.statFails || Coincides(start, body)
  {
    hide RestoreEnd, IsOldMain, Parked;
    RestoreEndParts(start, body, health, force, f);
    var (err, end) := RestoreEnd(start, body, health, force, f);
    if Parked(end, start, f.drain) {
      ParkedKeepsMain(end, start, f.drain);
    }
    MainIsOldMain(start);
  }

  lemma MainIsOldMain(start: Disk)
    requires Db in start
    ensures IsOldMain(start[Db], start)
  {
  }

  /** Without force an existing catalog is refused exactly when it is seen; and it
      is left in place exactly when it is seen, or the restore fails, or the
      download is the same file. */
  lemma ForceRespectedExactly(start: Disk, body: Pages, health: Pages -> Health, f: Faults)
    requires Db in start
    ensures var (err, end) := RestoreEnd(start, body, health, false, f);
      && (err == Some(Exists) <==> !f.statFails)
      && ((Db in end && end[Db] == start[Db]) <==> !f.statFails || err.Some? || body == start[Db])
  {
    hide FetchEnd, ParkEnd, InstallEnd;
    RestoreEndParts(start, body, health, false, f);
    FetchEndKeeps(start, body, health, f);
    NeverExists(start, body, health, f);
  }

  lemma NeverExists(start: Disk, body: Pages, health: Pages -> Health, f: Faults)
    ensures FetchEnd(start, body, health, f).0 != Some(Exists)
    ensures var (err, e) := FetchEnd(start, body, health, f); Tmp in e ==> InstallEnd(e, f).0 != Some(Exists)
  {
  }

  /** After a success the catalog reads as the download exactly when its log could
      be removed, or there was none, or it had been emptied by a checkpoint, or
      none of its frames disagrees with the download. */
  lemma ReadsDownloadExactly(start: Disk, body: Pages, health: Pages -> Health, force: bool, f: Faults)
    ensures var (err, end) := RestoreEnd(start, body, health, force, f);
      err.None? ==>
        && (DbWal in end <==> DbWal in start && f.removeWalFails)
        && (DbShm in end <==> DbShm in start && f.removeShmFails)
        && (Logical(end) == Some(body) <==>
              || !f.removeWalFails || DbWal !in start || (Db in start && !f.statFails && f.drain.Drained?)
              || forall p :: p in start[DbWal] ==> p in body && body[p] == start[DbWal][p])
  {
    hide RestoreEnd, Parked, IsOldMain;
    RestoreEndParts(start, body, health, force, f);
    var (err, end) := RestoreEnd(start, body, health, force, f);
    if err.None? {
      Disagrees(body, LogOf(end));
    }
  }

  lemma Disagrees(main: Pages, log: Pages)
    ensures main + log == main <==> forall p :: p in log ==> p in main && main[p] == log[p]
  {
    if forall p :: p in log ==> p in main && main[p] == log[p] {
      assert main + log == main;
    } else {
      var p :| p in log && !(p in main && main[p] == log[p]);
      assert p in main + log && (main + log)[p] == log[p];
    }
  }

  /** A failure leaves the catalog reading as before, except exactly when the very
      last rename fails: after the catalog was parked, or, when it was not seen,
      after a log that said something new was removed. */
  lemma FailureReadsExactly(start: Disk, body: Pages, health: Pages -> Health, force: bool, f: Faults)
    ensures var (err, end) := RestoreEnd(start, body, health, force, f);
      err.Some? ==>
        (Logical(end) == Logical(start) <==>
           || err.value != RenameNew || Db !in start
           || (f.statFails && (f.removeWalFails || start[Db] + LogOf(start) == start[Db])))
  {
    hide RestoreEnd, Parked, IsOldMain;
    RestoreEndParts(start, body, health, force, f);
    if Db in start {
      assert start[Db] + map[] == start[Db];
    }
  }

  // ---- What a restore does, step by step ----

  /** A file is taken for a catalog when it is intact, not of a later version of the
      program, and has the table of photos. */
  lemma VerifiedMeans(h: Health)
    ensures Verified(h) <==> h.integrity == "ok" && h.version <= 3 && h.hasPhotos
  {
  }

  /** A reader sees the frames of the log over the pages of the main file. */
  lemma LogicalMeans(d: Disk, p: nat)
    ensures Logical(d).Some? <==> Db in d
    ensures Db in d ==>
      var seen := Logical(d).value;
      && (p in seen <==> p in d[Db] || (DbWal in d && p in d[DbWal]))
      && (DbWal in d && p in d[DbWal] ==> seen[p] == d[DbWal][p])
      && (!(DbWal in d && p in d[DbWal]) && p in d[Db] ==> seen[p] == d[Db][p])
  {
  }

  /** The file that is parked has all frames folded in, or those that the checkpoint
      got to. */
  lemma AfterDrainMeans(drain: Drain, main: Pages, log: Pages, p: nat)
    ensures var file := AfterDrain(drain, main, log);
      var got := p in log && (drain.Drained? || p in drain.folded);
      && (p in file <==> p in main || got)
      && (p in file ==> file[p] == if got then log[p] else main[p])
  {
  }

  /** Which error a restore ends with: the first that happens, in this order. */
  lemma FailsWith(start: Disk, body: Pages, health: Pages -> Health, force: bool, f: Faults)
    ensures var found := Db in start && !f.statFails;
      RestoreEnd(start, body, health, force, f).0 ==
        if found && !force then Some(Exists)
        else if f.mkdirFails then Some(Mkdir)
        else if f.openFails then Some(Open)
        else if f.createFails then Some(Create)
        else if f.truncated.Some? then Some(Download)
        else if f.closeFails then Some(Close)
        else if f.verifyIoFails || !Verified(health(body)) then Some(Unverified)
        else if found && f.drain.Busy? then Some(InUse)
        else if found && f.renameOldFails then Some(RenameOld)
        else if f.renameNewFails then Some(RenameNew)
        else None
  {
    hide Verified, AfterDrain, Cleaned, WithoutSidecarFiles;
  }

  predicate NoTemps(d: Disk) {
    Tmp !in d && TmpWal !in d && TmpShm !in d
  }

  lemma FetchTemps(d: Disk, body: Pages, health: Pages -> Health, f: Faults)
    ensures var (err, e) := FetchEnd(d, body, health, f);
      && (err == None ==> Tmp in e && e[Tmp] == body && Verified(health(body)))
      && (err.Some? && err.value in {Mkdir, Open, Create} ==> e == d)
      && (err.Some? && err.value !in {Mkdir, Open, Create} && !f.removeTempFails ==> NoTemps(e))
      && (forall p :: p !in {Tmp, TmpWal, TmpShm} ==> (p in e <==> p in d) && (p in d ==> e[p] == d[p]))
      && err != Some(Exists)
  {
    hide Verified;
  }

  lemma ParkTemps(d: Disk, f: Faults)
    requires Db in d && Tmp in d
    ensures var (err, e) := ParkEnd(d, f);
      && (err == None ==> Tmp in e && e[Tmp] == d[Tmp] && Aside in e && e[Aside] == AfterDrain(f.drain, d[Db], LogOf(d)))
      && (err.Some? ==> err.value in {InUse, RenameOld} && (!f.removeTempFails ==> NoTemps(e)))
  {
    hide AfterDrain;
  }

  lemma InstallTemps(d: Disk, f: Faults)
    requires Tmp in d
    ensures var (err, e) := InstallEnd(d, f);
      && (err == None ==> Tmp !in e && Db in e && e[Db] == d[Tmp] && (Aside in e <==> Aside in d) && (Aside in d ==> e[Aside] == d[Aside]))
      && (err.Some? ==> err.value == RenameNew && (!f.removeTempFails ==> NoTemps(e)))
  {
  }

  /** A restore that ends before its download leaves every file as it was; one that
      ends later takes its temporary files away, unless that fails; and a successful
      one has none under the first name. */
  lemma TempsMean(start: Disk, body: Pages, health: Pages -> Health, force: bool, f: Faults)
    ensures var (err, end) := RestoreEnd(start, body, health, force, f);
      && (err.Some? && err.value in {Exists, Mkdir, Open, Create} ==> end == start)
      && (err.Some? && err.value !in {Exists, Mkdir, Open, Create} && !f.removeTempFails ==> Tmp !in end && TmpWal !in end && TmpShm !in end)
      && (err == None ==> Tmp !in end && Db in end && end[Db] == body && Verified(health(body)))
  {
    hide Verified, FetchEnd, ParkEnd, InstallEnd, AfterDrain;
    FetchTemps(start, body, health, f);
    var (err, e) := FetchEnd(start, body, health, f);
    if err == None {
      if Db in start {
        ParkTemps(e, f);
        var (err2, g) := ParkEnd(e, f);
        if err2 == None {
          InstallTemps(g, f);
        }
      }
      InstallTemps(e, f);
    }
  }

  /** What a success leaves aside: the file that was seen, after its checkpoint, or
      whatever was there. */
  lemma AsideMeans(start: Disk, body: Pages, health: Pages -> Health, force: bool, f: Faults)
    ensures var (err, end) := RestoreEnd(start, body, health, force, f);
      err == None ==>
        if Db in start && !f.statFails then Aside in end && end[Aside] == AfterDrain(f.drain, start[Db], if DbWal in start then start[DbWal] else map[])
        else (Aside in end <==> Aside in start) && (Aside in start ==> end[Aside] == start[Aside])
  {
    hide Verified, FetchEnd, ParkEnd, InstallEnd, AfterDrain;
    FetchTemps(start, body, health, f);
    var (err, e) := FetchEnd(start, body, health, f);
    if err == None {
      if Db in start {
        ParkTemps(e, f);
        var (err2, g) := ParkEnd(e, f);
        if err2 == None {
          InstallTemps(g, f);
        }
      }
      InstallTemps(e, f);
    }
  }

  // ---- Inputs for which it does not ----

  const NO_FAULTS := Faults(false, false, false, false, None, false, false, false, Drained, false, false, false, false, false)

  /** A catalog that cannot be looked at is replaced without force, and gone. */
  lemma StatErrorLosesCatalog(health: Pages -> Health)
    requires Verified(health(map[0 := 2]))
    ensures var start := map[Db := map[0 := 1]];
      var (err, end) := RestoreEnd(start, map[0 := 2], health, false, NO_FAULTS.(statFails := true));
      err.None? && !Survives(end, start) && end[Db] == map[0 := 2]
  {
    hide IsOldMain;
    var start: Disk := map[Db := map[0 := 1]];
    var f := NO_FAULTS.(statFails := true);
    var body: Pages := map[0 := 2];
    RestoreEndParts(start, body, health, false, f);
    MainKeptExactly(start, body, health, false, f);
    assert !IsOldMain(body, start) by { OtherMain(); }
  }

  lemma OtherMain()
    ensures !IsOldMain(map[0 := 2], map[Db := map[0 := 1]])
  {
    var log: Pages := map[];
    assert (map[0 := 2] + log)[0] == 2 && (map[0 := 1] + log)[0] == 1;
  }

  /** A log that no checkpoint emptied and that cannot be removed is read into the
      download. */
  lemma StaleLogSpoilsDownload(health: Pages -> Health)
    requires Verified(health(map[0 := 2]))
    ensures var start := map[Db := map[0 := 1], DbWal := map[0 := 3]];
      var (err, end) := RestoreEnd(start, map[0 := 2], health, true, NO_FAULTS.(drain := Unreadable({}), removeWalFails := true));
      err.None? && end[Db] == map[0 := 2] && Logical(end) == Some(map[0 := 3])
  {
    var start: Disk := map[Db := map[0 := 1], DbWal := map[0 := 3]];
    var f := NO_FAULTS.(drain := Unreadable({}), removeWalFails := true);
    var body: Pages := map[0 := 2];
    RestoreEndParts(start, body, health, true, f);
    assert body + map[0 := 3] == map[0 := 3];
  }
}
