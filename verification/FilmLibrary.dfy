/**
 * The film and Shorts catalogue (backend/src/radio/filmLibrary.js), from already parsed sidecars.
 * Durations are whole milliseconds; an absent parent link is the empty string.
 */
module FilmLibrary {
  import opened Common

  datatype Kind = Film | Short

  datatype Item = Item(
    id: string, series: string, kind: Kind, durMs: int, publishedAt: int, file: string, parentFilm: string)

  /** One video file with what its sidecar says; `None` is a value that did not parse. */
  datatype Record = Record(
    id: string, series: string, file: string, readable: bool,
    durMs: Option<int>, publishedAt: Option<int>, title: string, parentFilm: string)

  datatype SkipReason =
    | NoSidecar | NoDuration | NoPublishDate | InFuture | NoTitle
    | Sf60Barred | NoParentLink | ParentUnpublished | ParentNotInLibrary

  datatype Skip = Skip(file: string, reason: SkipReason)

  const SHORTS_SERIES := "scoopfeeds-60"
  const SHORT_MAX_MS := 60_000

  /** Why a Short may not air, or None when it may. */
  function ShortIneligibility(item: Item, filmIds: set<string>, unpublished: set<string>, allowSf60: bool)
    : Option<SkipReason>
  {
    if item.series == SHORTS_SERIES then (if allowSf60 then None else Some(Sf60Barred))
    else if item.parentFilm == "" then Some(NoParentLink)
    else if item.parentFilm in unpublished then Some(ParentUnpublished)
    else if item.parentFilm !in filmIds then Some(ParentNotInLibrary)
    else None
  }

  /** Phase one, for one file: an item, or the reason it cannot be listed. */
  function Screen(r: Record, now: int): Result<Item, SkipReason> {
    if !r.readable then Err(NoSidecar)
    else if r.durMs.None? || r.durMs.value <= 0 then Err(NoDuration)
    else if r.publishedAt.None? then Err(NoPublishDate)
    else if r.publishedAt.value > now then Err(InFuture)
    else if r.title == "" then Err(NoTitle)
    else
      var kind :=
        if r.series == SHORTS_SERIES || r.parentFilm != "" || r.durMs.value <= SHORT_MAX_MS then Short else Film;
      Ok(Item(r.id, r.series, kind, r.durMs.value, r.publishedAt.value, r.file, r.parentFilm))
  }

  function Listed(rs: seq<Record>, now: int): seq<Item> {
    if rs == [] then []
    else
      var n := |rs| - 1;
      Listed(rs[..n], now) + (match Screen(rs[n], now) case Ok(it) => [it] case Err(_) => [])
  }

  function Unlisted(rs: seq<Record>, now: int): seq<Skip> {
    if rs == [] then []
    else
      var n := |rs| - 1;
      Unlisted(rs[..n], now) + (match Screen(rs[n], now) case Ok(_) => [] case Err(e) => [Skip(rs[n].file, e)])
  }

  function Scheduled(rs: seq<Record>, now: int): set<string> {
    set r | r in rs && Screen(r, now) == Err(InFuture) :: r.id
  }

  function FilmIds(items: seq<Item>): set<string> {
    set it | it in items && it.kind.Film? :: it.id
  }

  function Barred(it: Item, filmIds: set<string>, unpublished: set<string>, allowSf60: bool): bool {
    it.kind.Short? && ShortIneligibility(it, filmIds, unpublished, allowSf60).Some?
  }

  function Airable(items: seq<Item>, filmIds: set<string>, unpublished: set<string>, allowSf60: bool): seq<Item> {
    if items == [] then []
    else
      (if Barred(items[0], filmIds, unpublished, allowSf60) then [] else [items[0]])
      + Airable(items[1..], filmIds, unpublished, allowSf60)
  }

  /** The barred Shorts, last first: the order a backwards sweep reports them in. */
  function BarredSkips(items: seq<Item>, filmIds: set<string>, unpublished: set<string>, allowSf60: bool)
    : seq<Skip>
  {
    if items == [] then []
    else
      BarredSkips(items[1..], filmIds, unpublished, allowSf60)
      + (if Barred(items[0], filmIds, unpublished, allowSf60)
         then [Skip(items[0].file, ShortIneligibility(items[0], filmIds, unpublished, allowSf60).value)]
         else [])
  }

  /** Phase one: one pass over the files. */
  method Scan(records: seq<Record>, now: int)
    returns (items: seq<Item>, skipped: seq<Skip>, unpublished: set<string>)
    ensures items == Listed(records, now)
    ensures skipped == Unlisted(records, now)
    ensures unpublished == Scheduled(records, now)
    ensures |items| + |skipped| == |records|
  {
    items, skipped, unpublished := [], [], {};
    for k := 0 to |records|
      invariant items == Listed(records[..k], now)
      invariant skipped == Unlisted(records[..k], now)
      invariant unpublished == Scheduled(records[..k], now)
      invariant |items| + |skipped| == k
    {
      assert records[..k + 1][..k] == records[..k];
      var screened := Screen(records[k], now);
      ScheduledStep(records, k, now);
      match screened
      case Ok(it) =>
        items := items + [it];
      case Err(e) =>
        if e == InFuture {
          unpublished := unpublished + {records[k].id};
        }
        skipped := skipped + [Skip(records[k].file, e)];
    }
    assert records[..|records|] == records;
  }

  lemma ScheduledStep(rs: seq<Record>, k: nat, now: int)
    requires k < |rs|
    ensures Scheduled(rs[..k + 1], now)
         == Scheduled(rs[..k], now) + (if Screen(rs[k], now) == Err(InFuture) then {rs[k].id} else {})
  {
    assert rs[..k + 1] == rs[..k] + [rs[k]];
  }

  /** The sweep has come down to position `n`: what is above it is settled. */
  ghost predicate SweptTo(
    all: seq<Item>, items: seq<Item>, dropped: seq<Skip>, n: nat,
    filmIds: set<string>, unpublished: set<string>, allowSf60: bool)
  {
    && n <= |all| && |items| >= n && |items| + |dropped| == |all|
    && items == all[..n] + Airable(all[n..], filmIds, unpublished, allowSf60)
    && dropped == BarredSkips(all[n..], filmIds, unpublished, allowSf60)
  }

  lemma SweepBegins(all: seq<Item>, filmIds: set<string>, unpublished: set<string>, allowSf60: bool)
    ensures SweptTo(all, all, [], |all|, filmIds, unpublished, allowSf60)
  {
    assert all[|all|..] == [];
  }

  lemma SweepEnds(
    all: seq<Item>, items: seq<Item>, dropped: seq<Skip>,
    filmIds: set<string>, unpublished: set<string>, allowSf60: bool)
    requires SweptTo(all, items, dropped, 0, filmIds, unpublished, allowSf60)
    ensures items == Airable(all, filmIds, unpublished, allowSf60)
    ensures dropped == BarredSkips(all, filmIds, unpublished, allowSf60) && |items| + |dropped| == |all|
  {
    assert all[0..] == all;
  }

  lemma SweepStep(
    all: seq<Item>, items: seq<Item>, dropped: seq<Skip>, i: nat,
    filmIds: set<string>, unpublished: set<string>, allowSf60: bool)
    requires SweptTo(all, items, dropped, i + 1, filmIds, unpublished, allowSf60)
    ensures |items| > i && items[i] == all[i]
    ensures if Barred(all[i], filmIds, unpublished, allowSf60) then
              var skip := Skip(all[i].file, ShortIneligibility(all[i], filmIds, unpublished, allowSf60).value);
              SweptTo(all, items[..i] + items[i + 1..], dropped + [skip], i, filmIds, unpublished, allowSf60)
            else SweptTo(all, items, dropped, i, filmIds, unpublished, allowSf60)
  {
    var rest := Airable(all[i + 1..], filmIds, unpublished, allowSf60);
    assert all[i..][0] == all[i] && all[i..][1..] == all[i + 1..];
    assert all[..i + 1] == all[..i] + [all[i]];
    assert all[..i] + [all[i]] + rest == all[..i] + ([all[i]] + rest);
    assert items[..i] == all[..i] && items[i + 1..] == rest;
  }

  /** Phase two: sweep backwards, splicing out the Shorts that may not air. */
  method BarShorts(all: seq<Item>, filmIds: set<string>, unpublished: set<string>, allowSf60: bool)
    returns (items: seq<Item>, dropped: seq<Skip>)
    ensures items == Airable(all, filmIds, unpublished, allowSf60)
    ensures dropped == BarredSkips(all, filmIds, unpublished, allowSf60)
    ensures |items| + |dropped| == |all|
  {
    hide SweptTo, Airable, BarredSkips, ShortIneligibility;
    items, dropped := all, [];
    SweepBegins(all, filmIds, unpublished, allowSf60);
    var i := |items| - 1;
    while i >= 0
      invariant -1 <= i < |all| && SweptTo(all, items, dropped, i + 1, filmIds, unpublished, allowSf60)
    {
      SweepStep(all, items, dropped, i, filmIds, unpublished, allowSf60);
      if items[i].kind.Short? {
        var reason := ShortIneligibility(items[i], filmIds, unpublished, allowSf60);
        if reason.Some? {
          dropped := dropped + [Skip(items[i].file, reason.value)];
          items := items[..i] + items[i + 1..];
        }
      }
      i := i - 1;
    }
    SweepEnds(all, items, dropped, filmIds, unpublished, allowSf60);
  }

  /**
   * The catalogue before its final display order. Every file is either listed or reported once; a Short
   * stays only when it may air against the films found in the same pass.
   */
  method LoadLibrary(records: seq<Record>, now: int, allowSf60: bool)
    returns (items: seq<Item>, skipped: seq<Skip>)
    ensures var all := Listed(records, now);
            && items == Airable(all, FilmIds(all), Scheduled(records, now), allowSf60)
            && skipped == Unlisted(records, now) + BarredSkips(all, FilmIds(all), Scheduled(records, now), allowSf60)
    ensures |items| + |skipped| == |records|
  {
    var listed, reported, unpublished := Scan(records, now);
    var dropped;
    items, dropped := BarShorts(listed, FilmIds(listed), unpublished, allowSf60);
    skipped := reported + dropped;
  }

  // ---- what the catalogue holds ---------------------------------------------------------------

  /**
   * A file is listed when its sidecar reads, and gives a length, a publication date that has come, and a title. It is
   * a Short if it is of the series of Shorts, names a parent film, or runs a minute at most.
   */
  lemma ScreenMeans(r: Record, now: int, it: Item)
    ensures Screen(r, now) == Ok(it) <==>
              && r.readable && r.title != "" && r.id == it.id && r.series == it.series && r.file == it.file
              && r.durMs == Some(it.durMs) && it.durMs > 0
              && r.publishedAt == Some(it.publishedAt) && it.publishedAt <= now && r.parentFilm == it.parentFilm
              && (it.kind == Short <==> it.series == "scoopfeeds-60" || it.parentFilm != "" || it.durMs <= 60_000)
    ensures Screen(r, now) == Err(InFuture) <==>
              r.readable && r.durMs.Some? && r.durMs.value > 0 && r.publishedAt.Some? && r.publishedAt.value > now
  {
  }

  /** The reason an unlisted file is reported with is the first thing missing. */
  lemma SkipMeans(r: Record, now: int, why: SkipReason)
    ensures Screen(r, now) == Err(why) ==>
              match why
              case NoSidecar => !r.readable
              case NoDuration => r.readable && (r.durMs.Some? ==> r.durMs.value <= 0)
              case NoPublishDate => r.readable && r.durMs.Some? && r.publishedAt == None
              case InFuture => r.readable && r.durMs.Some? && r.publishedAt.Some?
              case NoTitle => r.readable && r.durMs.Some? && r.publishedAt.Some? && r.title == ""
              case _ => false
  {
  }

  /** A Short is barred, and for which reason. */
  lemma BarredMeans(it: Item, filmIds: set<string>, unpublished: set<string>, allowSf60: bool)
    ensures Barred(it, filmIds, unpublished, allowSf60) <==>
              it.kind == Short
              && if it.series == "scoopfeeds-60" then !allowSf60
                 else it.parentFilm == "" || it.parentFilm in unpublished || it.parentFilm !in filmIds
    ensures Barred(it, filmIds, unpublished, allowSf60) ==>
              match ShortIneligibility(it, filmIds, unpublished, allowSf60).value
              case Sf60Barred => it.series == "scoopfeeds-60"
              case NoParentLink => it.series != "scoopfeeds-60" && it.parentFilm == ""
              case ParentUnpublished =>
                it.series != "scoopfeeds-60" && it.parentFilm != "" && it.parentFilm in unpublished
              case ParentNotInLibrary =>
                it.series != "scoopfeeds-60" && it.parentFilm != "" && it.parentFilm !in unpublished + filmIds
              case _ => false
  {
  }

  /** Both phases keep the order of the files; only the Shorts of the second phase are reported last first. */
  lemma {:induction false} FilesInOrder(a: seq<Record>, b: seq<Record>, now: int)
    ensures Listed(a + b, now) == Listed(a, now) + Listed(b, now)
    ensures Unlisted(a + b, now) == Unlisted(a, now) + Unlisted(b, now)
  {
    if b == [] {
      assert a + b == a;
    } else {
      var n := |b| - 1;
      FilesInOrder(a, b[..n], now);
      assert a + b == (a + b[..n]) + [b[n]] && b == b[..n] + [b[n]];
      OneMoreFile(a + b[..n], b[n], now);
      OneMoreFile(b[..n], b[n], now);
      hide Listed, Unlisted;
    }
  }

  lemma OneMoreFile(rs: seq<Record>, r: Record, now: int)
    ensures Listed(rs + [r], now) == Listed(rs, now) + Listed([r], now)
    ensures Unlisted(rs + [r], now) == Unlisted(rs, now) + Unlisted([r], now)
  {
    assert (rs + [r])[..|rs|] == rs && [r][..0] == [];
    assert Listed([r][..0], now) == [] && Unlisted([r][..0], now) == [];
    hide Screen;
  }

  lemma {:induction false} KeptInOrder(
    a: seq<Item>, b: seq<Item>, filmIds: set<string>, unpublished: set<string>, allowSf60: bool)
    ensures Airable(a + b, filmIds, unpublished, allowSf60) ==
              Airable(a, filmIds, unpublished, allowSf60) + Airable(b, filmIds, unpublished, allowSf60)
  {
    if a == [] {
      assert a + b == b;
    } else {
      KeptInOrder(a[1..], b, filmIds, unpublished, allowSf60);
      assert a + b == [a[0]] + (a[1..] + b) && a == [a[0]] + a[1..];
      OneMoreKept(a[0], a[1..] + b, filmIds, unpublished, allowSf60);
      OneMoreKept(a[0], a[1..], filmIds, unpublished, allowSf60);
      hide Airable;
    }
  }

  lemma OneMoreKept(
    it: Item, items: seq<Item>, filmIds: set<string>, unpublished: set<string>, allowSf60: bool)
    ensures Airable([it] + items, filmIds, unpublished, allowSf60) ==
              Airable([it], filmIds, unpublished, allowSf60) + Airable(items, filmIds, unpublished, allowSf60)
  {
    assert ([it] + items)[1..] == items && [it][1..] == [];
    assert Airable([it][1..], filmIds, unpublished, allowSf60) == [];
    hide Barred;
  }

  lemma {:induction false} BarredLastFirst(
    a: seq<Item>, b: seq<Item>, filmIds: set<string>, unpublished: set<string>, allowSf60: bool)
    ensures BarredSkips(a + b, filmIds, unpublished, allowSf60) ==
              BarredSkips(b, filmIds, unpublished, allowSf60) + BarredSkips(a, filmIds, unpublished, allowSf60)
  {
    if a == [] {
      assert a + b == b;
    } else {
      BarredLastFirst(a[1..], b, filmIds, unpublished, allowSf60);
      assert a + b == [a[0]] + (a[1..] + b) && a == [a[0]] + a[1..];
      OneMoreBarred(a[0], a[1..] + b, filmIds, unpublished, allowSf60);
      OneMoreBarred(a[0], a[1..], filmIds, unpublished, allowSf60);
      hide BarredSkips;
    }
  }

  lemma OneMoreBarred(
    it: Item, items: seq<Item>, filmIds: set<string>, unpublished: set<string>, allowSf60: bool)
    ensures BarredSkips([it] + items, filmIds, unpublished, allowSf60) ==
              BarredSkips(items, filmIds, unpublished, allowSf60) + BarredSkips([it], filmIds, unpublished, allowSf60)
  {
    assert ([it] + items)[1..] == items && [it][1..] == [];
    assert BarredSkips([it][1..], filmIds, unpublished, allowSf60) == [];
    hide Barred;
  }

  lemma {:induction false} AirableMembers(
    items: seq<Item>, filmIds: set<string>, unpublished: set<string>, allowSf60: bool, it: Item)
    ensures it in Airable(items, filmIds, unpublished, allowSf60)
       <==> it in items && !Barred(it, filmIds, unpublished, allowSf60)
  {
    if items != [] {
      AirableMembers(items[1..], filmIds, unpublished, allowSf60, it);
    }
  }

  lemma {:induction false} ListedIsPublished(rs: seq<Record>, now: int, it: Item)
    requires it in Listed(rs, now)
    ensures it.durMs > 0 && it.publishedAt <= now
    ensures it.kind.Film? ==> it.series != SHORTS_SERIES && it.parentFilm == "" && it.durMs > SHORT_MAX_MS
  {
    var n := |rs| - 1;
    if it in Listed(rs[..n], now) {
      ListedIsPublished(rs[..n], now, it);
    }
  }

  /** Barring Shorts never removes a film, so the film ids of the catalogue are those of the first phase. */
  lemma FilmIdsSurvive(rs: seq<Record>, now: int, allowSf60: bool)
    ensures var all := Listed(rs, now);
            FilmIds(Airable(all, FilmIds(all), Scheduled(rs, now), allowSf60)) == FilmIds(all)
  {
    var all := Listed(rs, now);
    forall it
      ensures it in Airable(all, FilmIds(all), Scheduled(rs, now), allowSf60)
         <==> it in all && !Barred(it, FilmIds(all), Scheduled(rs, now), allowSf60)
    {
      AirableMembers(all, FilmIds(all), Scheduled(rs, now), allowSf60, it);
    }
  }

  /**
   * What the catalogue guarantees its users: everything in it is published and has a length, and a Short in it
   * is a permitted ScoopFeeds 60 or names a published long-form film of the same catalogue.
   */
  lemma CatalogueIsAirable(rs: seq<Record>, now: int, allowSf60: bool, it: Item)
    requires var all := Listed(rs, now);
             it in Airable(all, FilmIds(all), Scheduled(rs, now), allowSf60)
    ensures it.durMs > 0 && it.publishedAt <= now
    ensures it.kind.Short? && it.series == SHORTS_SERIES ==> allowSf60
    ensures it.kind.Short? && it.series != SHORTS_SERIES ==>
              var all := Listed(rs, now);
              exists f :: && f in Airable(all, FilmIds(all), Scheduled(rs, now), allowSf60)
                          && f.kind.Film? && f.id == it.parentFilm && f.durMs > SHORT_MAX_MS && f.publishedAt <= now
  {
    var all := Listed(rs, now);
    AirableMembers(all, FilmIds(all), Scheduled(rs, now), allowSf60, it);
    ListedIsPublished(rs, now, it);
    if it.kind.Short? && it.series != SHORTS_SERIES {
      var f :| f in all && f.kind.Film? && f.id == it.parentFilm;
      AirableMembers(all, FilmIds(all), Scheduled(rs, now), allowSf60, f);
      ListedIsPublished(rs, now, f);
    }
  }

  /**
   * The planner checks every Short again, without the list of scheduled uploads. On a catalogue that
   * LoadLibrary built with the same setting the second check refuses nothing.
   */
  lemma PlannerRecheckIsIdle(rs: seq<Record>, now: int, allowSf60: bool, it: Item)
    requires var all := Listed(rs, now);
             it in Airable(all, FilmIds(all), Scheduled(rs, now), allowSf60)
    ensures var all := Listed(rs, now);
            var items := Airable(all, FilmIds(all), Scheduled(rs, now), allowSf60);
            !Barred(it, FilmIds(items), {}, allowSf60)
  {
    var all := Listed(rs, now);
    AirableMembers(all, FilmIds(all), Scheduled(rs, now), allowSf60, it);
    FilmIdsSurvive(rs, now, allowSf60);
  }
}
