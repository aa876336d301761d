/**
 * The free-reading meter (backend/src/models/database.js, checkMeter): a device may open so many new articles in a
 * rolling window. The table has one row for a device and an article.
 */
module Meter {
  import opened Common
  import opened SlidingWindow

  const WINDOW := 30 * 24 * 60 * 60 * 1000

  datatype Row = Row(device: string, article: string, at: int)

  datatype Answer = Answer(allowed: bool, count: int, signedIn: bool, premium: bool)

  predicate Opened(rows: seq<Row>, device: string, article: string) {
    exists i :: 0 <= i < |rows| && rows[i].device == device && rows[i].article == article
  }

  /** The distinct articles the device opened after `cut`. */
  function Recent(rows: seq<Row>, device: string, cut: int): set<string> {
    set i | 0 <= i < |rows| && rows[i].device == device && rows[i].at > cut :: rows[i].article
  }

  /** May this device open this article at `now`? */
  predicate MayOpen(rows: seq<Row>, limit: int, device: string, article: string, now: int) {
    Opened(rows, device, article) || |Recent(rows, device, now - WINDOW)| < limit
  }

  /** When the device opened its articles, each for the first time. */
  ghost function Opens(rows: seq<Row>, device: string): seq<int> {
    if rows == [] then []
    else
      var n := |rows| - 1;
      Opens(rows[..n], device) + (if rows[n].device == device then [rows[n].at] else [])
  }

  ghost predicate Unique(rows: seq<Row>) {
    forall i, j :: 0 <= i < j < |rows| ==> !(rows[i].device == rows[j].device && rows[i].article == rows[j].article)
  }

  ghost predicate InOrder(rows: seq<Row>, now: int) {
    && (forall i, j :: 0 <= i < j < |rows| ==> rows[i].at <= rows[j].at)
    && (rows != [] ==> rows[|rows| - 1].at <= now)
  }

  /** No device ever opens more than `limit` new articles in one window. */
  ghost predicate LimitKept(rows: seq<Row>, limit: int) {
    limit > 0 ==> forall d :: Spaced(Opens(rows, d), limit, WINDOW)
  }

  /** The articles the device opened for the first time in the last thirty days. */
  ghost function RecentlyOpened(rows: seq<Row>, device: string, now: int): set<string> {
    set x | x in rows && x.device == device && x.at > now - 2_592_000_000 :: x.article
  }

  lemma RecentMeans(rows: seq<Row>, device: string, article: string, now: int)
    ensures Recent(rows, device, now - WINDOW) == RecentlyOpened(rows, device, now)
    ensures Opened(rows, device, article) <==> exists x :: x in rows && x.device == device && x.article == article
  {
    forall a
      ensures a in Recent(rows, device, now - WINDOW) <==> a in RecentlyOpened(rows, device, now)
    {
      if a in RecentlyOpened(rows, device, now) {
        var x :| x in rows && x.device == device && x.at > now - 2_592_000_000 && x.article == a;
        var i :| 0 <= i < |rows| && rows[i] == x;
      }
    }
    if x :| x in rows && x.device == device && x.article == article {
      var i :| 0 <= i < |rows| && rows[i] == x;
    }
  }

  class Ledger {
    const limit: int
    var rows: seq<Row>

    ghost predicate Valid(now: int)
      reads this
    {
      Unique(rows) && InOrder(rows, now) && LimitKept(rows, limit)
    }

    constructor (limit: int)
      ensures forall now :: Valid(now)
      ensures this.limit == limit && rows == []
    {
      this.limit := limit;
      rows := [];
    }

    /**
     * `user` is the tier of a known signed-in user; the clock is read at `now` for the check and at `later` for the
     * row that is written.
     */
    method CheckMeter(device: string, article: string, record: bool, user: Option<string>, now: int, later: int)
      returns (r: Answer)
      requires Valid(now) && now <= later
      modifies this`rows
      ensures Valid(later)
      ensures user.Some? ==> r == Answer(true, 0, true, user.value == "premium") && rows == old(rows)
      ensures user.None? ==>
                && !r.signedIn && !r.premium
                && (r.allowed <==>
                      || (exists x :: x in old(rows) && x.device == device && x.article == article)
                      || |RecentlyOpened(old(rows), device, now)| < limit)
      ensures user.None? ==>
                rows == old(rows) + if record && r.allowed && !Opened(old(rows), device, article)
                                    then [Row(device, article, later)] else []
      // The count shown includes the article at hand and never exceeds the limit.
      ensures user.None? ==>
                var n := |RecentlyOpened(old(rows), device, now)|
                         + if Opened(old(rows), device, article) then 0 else 1;
                r.count <= limit && r.count <= n && (r.count == limit || r.count == n)
    {
      assert InOrder(rows, later);
      RecentMeans(rows, device, article, now);
      hide RecentlyOpened, LimitKept, Opened, Recent, Unique, InOrder;
      if user.Some? {
        return Answer(true, 0, true, user.value == "premium");
      }
      var count := |Recent(rows, device, now - WINDOW)|;
      var seen := Opened(rows, device, article);
      var allowed := seen || count < limit;
      if record && allowed && !seen {
        RecentAreOpens(rows, device, now, now - WINDOW);
        NewRow(rows, Row(device, article, later), now);
        NewOpen(rows, limit, Row(device, article, later), now);
        rows := rows + [Row(device, article, later)];
      }
      var n := count + if seen then 0 else 1;
      r := Answer(allowed, if n < limit then n else limit, false, false);
    }
  }

  // ---- why the limit holds --------------------------------------------------------------------

  lemma {:induction false} OpensAscend(rows: seq<Row>, device: string, now: int)
    requires InOrder(rows, now)
    ensures Ascending(Opens(rows, device))
    ensures var t := Opens(rows, device); t != [] ==> t[|t| - 1] <= rows[|rows| - 1].at
  {
    if rows != [] {
      OpensAscend(rows[..|rows| - 1], device, now);
    }
  }

  /** The opens of a device that are after `cut` are exactly as many as its recent articles. */
  lemma {:induction false} RecentAreOpens(rows: seq<Row>, device: string, now: int, cut: int)
    requires Unique(rows) && InOrder(rows, now)
    ensures |Recent(rows, device, cut)| == |Opens(rows, device)| - Before(Opens(rows, device), cut)
  {
    hide Unique, InOrder, Recent;
    if rows == [] {
      RecentOfNone(device, cut);
    } else {
      var before, last := rows[..|rows| - 1], rows[|rows| - 1];
      assert rows == before + [last];
      PrefixOf(before, last, now);
      RecentAreOpens(before, device, now, cut);
      RecentGrows(before, last, device, cut);
      NewArticle(before, last, cut);
      OpensAscend(rows, device, now);
      if last.device == device {
        BeforeNext(Opens(before, device), last.at, cut);
        assert Opens(rows, device) == Opens(before, device) + [last.at];
        if last.at > cut {
          assert |Recent(rows, device, cut)| == |Recent(before, device, cut) + {last.article}|;
        } else {
          assert Recent(rows, device, cut) == Recent(before, device, cut);
        }
      } else {
        assert Opens(rows, device) == Opens(before, device);
      }
    }
  }

  lemma RecentOfNone(device: string, cut: int)
    ensures Recent([], device, cut) == {}
  {
  }

  lemma PrefixOf(rows: seq<Row>, last: Row, now: int)
    requires Unique(rows + [last]) && InOrder(rows + [last], now)
    ensures Unique(rows) && InOrder(rows, now)
  {
    var g := rows + [last];
    assert forall i :: 0 <= i < |rows| ==> g[i] == rows[i];
  }

  lemma NewArticle(rows: seq<Row>, last: Row, cut: int)
    requires Unique(rows + [last])
    ensures last.article !in Recent(rows, last.device, cut)
  {
    var g := rows + [last];
    assert g[|rows|] == last && forall i :: 0 <= i < |rows| ==> g[i] == rows[i];
  }

  lemma BeforeNext(t: seq<int>, at: int, cut: int)
    ensures Ascending(t + [at]) ==> Before(t + [at], cut) == if at > cut then Before(t, cut) else |t| + 1
  {
    var g := t + [at];
    assert forall i :: 0 <= i < |t| ==> g[i] == t[i];
    assert g[|t|] == at;
    var n := Before(g, cut);
    if Ascending(g) && at > cut {
      var m := Before(t, cut);
      assert n >= m;
      assert m < |t| ==> g[m] > cut;
    }
  }

  lemma RecentGrows(rows: seq<Row>, last: Row, device: string, cut: int)
    ensures Recent(rows + [last], device, cut) ==
              Recent(rows, device, cut) + if last.device == device && last.at > cut then {last.article} else {}
  {
    var g := rows + [last];
    assert forall i :: 0 <= i < |rows| ==> g[i] == rows[i];
    assert g[|rows|] == last;
  }

  /** A row for an article the device had not opened keeps the key unique and the order of time. */
  lemma NewRow(rows: seq<Row>, row: Row, now: int)
    requires Unique(rows) && InOrder(rows, now) && now <= row.at && !Opened(rows, row.device, row.article)
    ensures Unique(rows + [row]) && InOrder(rows + [row], row.at)
  {
  }

  lemma OpensOfNew(rows: seq<Row>, row: Row, device: string)
    ensures Opens(rows + [row], device) == Opens(rows, device) + if row.device == device then [row.at] else []
  {
    assert (rows + [row])[..|rows|] == rows;
  }

  /** A row that comes when fewer than `limit` of the device's opens are recent keeps the limit. */
  lemma NewOpen(rows: seq<Row>, limit: int, row: Row, now: int)
    requires LimitKept(rows, limit) && now <= row.at
    requires |Opens(rows, row.device)| - Before(Opens(rows, row.device), now - WINDOW) < limit
    ensures LimitKept(rows + [row], limit)
  {
    forall d
      ensures Spaced(Opens(rows + [row], d), limit, WINDOW)
    {
      OpensOfNew(rows, row, d);
      if d == row.device {
        OneMore(Opens(rows, d), limit, WINDOW, row.at);
      }
    }
  }

  // ---- what the meter does and does not bound --------------------------------------------------

  /** In any window at all, a device opens at most `limit` articles for the first time. */
  lemma NewArticlesAreBounded(rows: seq<Row>, limit: int, device: string, now: int, from: int)
    requires Unique(rows) && InOrder(rows, now) && LimitKept(rows, limit) && limit > 0
    ensures |InWindow(Opens(rows, device), from, WINDOW)| <= limit
  {
    OpensAscend(rows, device, now);
    WindowIsShort(Opens(rows, device), limit, WINDOW, from);
  }

  /** An article once opened is free for ever after, whatever else happens. */
  lemma OpenedIsFree(rows: seq<Row>, more: seq<Row>, limit: int, device: string, article: string, now: int)
    requires Opened(rows, device, article)
    ensures MayOpen(rows + more, limit, device, article, now)
  {
    var i :| 0 <= i < |rows| && rows[i].device == device && rows[i].article == article;
    assert (rows + more)[i] == rows[i];
  }

  // ---- distinct articles read, the figure the route's header speaks of -------------------------

  /** The table, and every read that was let through: first opens and rereads alike. */
  datatype History = History(rows: seq<Row>, log: seq<Row>)

  /** A device asks for an article: checked at `now`, recorded at `later`. */
  datatype Visit = Visit(device: string, article: string, now: int, later: int)

  function Read(h: History, limit: int, v: Visit): History {
    if !MayOpen(h.rows, limit, v.device, v.article, v.now) then h
    else
      var row := Row(v.device, v.article, v.later);
      History(if Opened(h.rows, v.device, v.article) then h.rows else h.rows + [row], h.log + [row])
  }

  function After(limit: int, visits: seq<Visit>): History {
    if visits == [] then History([], [])
    else Read(After(limit, visits[..|visits| - 1]), limit, visits[|visits| - 1])
  }

  ghost predicate ClockForward(visits: seq<Visit>) {
    && (forall k :: 0 <= k < |visits| ==> visits[k].now <= visits[k].later)
    && (forall j, k :: 0 <= j < k < |visits| ==> visits[j].later <= visits[k].now)
  }

  /** The distinct articles a device read in the window that begins at `from`. */
  ghost function ReadIn(log: seq<Row>, device: string, from: int): set<string> {
    set i | 0 <= i < |log| && log[i].device == device && from <= log[i].at < from + WINDOW :: log[i].article
  }

  ghost predicate OpenedBefore(rows: seq<Row>, device: string, article: string, from: int) {
    exists i :: 0 <= i < |rows| && rows[i].device == device && rows[i].article == article && rows[i].at < from
  }

  /** The articles read in the window that the device had opened before the window began. */
  ghost function Rereads(h: History, device: string, from: int): set<string> {
    set x | x in ReadIn(h.log, device, from) && OpenedBefore(h.rows, device, x, from)
  }

  ghost predicate HasRow(rows: seq<Row>, read: Row) {
    exists i :: 0 <= i < |rows| && rows[i].device == read.device && rows[i].article == read.article
        && rows[i].at <= read.at
  }

  /** The table keeps its promises, every read has its row, and every row was a read. */
  ghost predicate Sound(h: History, limit: int, now: int) {
    && Unique(h.rows) && InOrder(h.rows, now) && LimitKept(h.rows, limit)
    && (forall i :: 0 <= i < |h.log| ==> HasRow(h.rows, h.log[i]))
    && (forall i :: 0 <= i < |h.rows| ==> h.rows[i] in h.log)
  }

  lemma HasRowStays(rows: seq<Row>, row: Row, read: Row)
    requires HasRow(rows, read)
    ensures HasRow(rows + [row], read)
  {
    var i :| 0 <= i < |rows| && rows[i].device == read.device && rows[i].article == read.article
        && rows[i].at <= read.at;
    assert (rows + [row])[i] == rows[i];
  }

  lemma ReadIsSound(h: History, limit: int, v: Visit)
    requires Sound(h, limit, v.now) && v.now <= v.later
    ensures Sound(Read(h, limit, v), limit, v.later)
  {
    hide LimitKept, Recent, Unique, InOrder, HasRow, Opened;
    var row := Row(v.device, v.article, v.later);
    InOrderStays(h.rows, v.now, v.later);
    if MayOpen(h.rows, limit, v.device, v.article, v.now) {
      if Opened(h.rows, v.device, v.article) {
        OpenedHasRow(h.rows, row, v.now);
      } else {
        RecentAreOpens(h.rows, v.device, v.now, v.now - WINDOW);
        NewRow(h.rows, row, v.now);
        NewOpen(h.rows, limit, row, v.now);
        NewHasRow(h.rows, row);
        forall i | 0 <= i < |h.log|
          ensures HasRow(h.rows + [row], h.log[i])
        {
          HasRowStays(h.rows, row, h.log[i]);
        }
      }
    }
  }

  lemma InOrderStays(rows: seq<Row>, now: int, later: int)
    requires InOrder(rows, now) && now <= later
    ensures InOrder(rows, later)
  {
  }

  lemma OpenedHasRow(rows: seq<Row>, read: Row, now: int)
    requires Opened(rows, read.device, read.article) && InOrder(rows, now) && now <= read.at
    ensures HasRow(rows, read)
  {
    var i :| 0 <= i < |rows| && rows[i].device == read.device && rows[i].article == read.article;
    assert rows[i].at <= rows[|rows| - 1].at;
  }

  lemma NewHasRow(rows: seq<Row>, row: Row)
    ensures HasRow(rows + [row], row)
  {
    assert (rows + [row])[|rows|] == row;
  }

  lemma SoundStays(h: History, limit: int, now: int, later: int)
    requires Sound(h, limit, now) && now <= later
    ensures Sound(h, limit, later)
  {
    hide LimitKept, Unique, HasRow;
  }

  lemma ClockBefore(visits: seq<Visit>)
    requires visits != [] && ClockForward(visits)
    ensures var n := |visits| - 1;
            && ClockForward(visits[..n]) && visits[n].now <= visits[n].later
            && (n > 0 ==> visits[..n][n - 1].later <= visits[n].now)
  {
  }

  lemma {:induction false} HistoryIsSound(limit: int, visits: seq<Visit>, now: int)
    requires ClockForward(visits) && (visits != [] ==> visits[|visits| - 1].later <= now)
    ensures Sound(After(limit, visits), limit, now)
  {
    hide Sound, Read, ClockForward;
    if visits == [] {
      NothingReadIsSound(limit, now);
    } else {
      var n := |visits| - 1;
      ClockBefore(visits);
      HistoryIsSound(limit, visits[..n], visits[n].now);
      ReadIsSound(After(limit, visits[..n]), limit, visits[n]);
      SoundStays(After(limit, visits), limit, visits[n].later, now);
    }
  }

  lemma NothingReadIsSound(limit: int, now: int)
    ensures Sound(History([], []), limit, now)
  {
  }

  lemma ReadInGrows(rows: seq<Row>, last: Row, device: string, from: int)
    ensures ReadIn(rows + [last], device, from) ==
              ReadIn(rows, device, from)
              + if last.device == device && from <= last.at < from + WINDOW then {last.article} else {}
  {
    var g := rows + [last];
    assert forall i :: 0 <= i < |rows| ==> g[i] == rows[i];
    assert g[|rows|] == last;
  }

  lemma WindowGrows(t: seq<int>, at: int, from: int)
    ensures InWindow(t + [at], from, WINDOW)
         == InWindow(t, from, WINDOW) + if from <= at < from + WINDOW then {|t|} else {}
  {
    var g := t + [at];
    assert forall i :: 0 <= i < |t| ==> g[i] == t[i];
    assert g[|t|] == at;
  }

  /** As many articles are first opened in a window as there are opens in it, or fewer. */
  lemma {:induction false} FirstsInWindow(rows: seq<Row>, device: string, from: int)
    ensures |ReadIn(rows, device, from)| <= |InWindow(Opens(rows, device), from, WINDOW)|
  {
    if rows == [] {
      assert ReadIn(rows, device, from) == {};
    } else {
      var before, last := rows[..|rows| - 1], rows[|rows| - 1];
      assert rows == before + [last];
      FirstsInWindow(before, device, from);
      ReadInGrows(before, last, device, from);
      var t, t' := Opens(before, device), Opens(rows, device);
      if last.device == device {
        assert t' == t + [last.at];
        WindowGrows(t, last.at, from);
        assert |t| !in InWindow(t, from, WINDOW);
      } else {
        assert t' == t;
      }
    }
  }

  /** In any window, the distinct articles read are those opened in it for the first time and the old ones reread. */
  lemma ReadsSplit(limit: int, visits: seq<Visit>, device: string, from: int)
    requires ClockForward(visits)
    ensures var h := After(limit, visits);
            && ReadIn(h.log, device, from) == ReadIn(h.rows, device, from) + Rereads(h, device, from)
            && ReadIn(h.rows, device, from) !! Rereads(h, device, from)
  {
    hide ClockForward, ReadIn, OpenedBefore;
    var h := After(limit, visits);
    var now := if visits == [] then 0 else visits[|visits| - 1].later;
    HistoryIsSound(limit, visits, now);
    forall x
      ensures x in ReadIn(h.log, device, from) <==>
                x in ReadIn(h.rows, device, from) || x in Rereads(h, device, from)
      ensures !(x in ReadIn(h.rows, device, from) && OpenedBefore(h.rows, device, x, from))
    {
      ReadIsFirstOrOld(h, limit, now, device, from, x);
    }
  }

  lemma ReadIsFirstOrOld(h: History, limit: int, now: int, device: string, from: int, x: string)
    requires Sound(h, limit, now)
    ensures x in ReadIn(h.rows, device, from) ==> x in ReadIn(h.log, device, from)
    ensures x in ReadIn(h.log, device, from) ==>
              x in ReadIn(h.rows, device, from) || OpenedBefore(h.rows, device, x, from)
    ensures !(x in ReadIn(h.rows, device, from) && OpenedBefore(h.rows, device, x, from))
  {
    hide LimitKept, InOrder, HasRow;
    if x in ReadIn(h.log, device, from) {
      hide OpenedBefore, Unique;
      var j :| 0 <= j < |h.log| && h.log[j].device == device && from <= h.log[j].at < from + WINDOW
               && h.log[j].article == x;
      assert HasRow(h.rows, h.log[j]);
      FirstOrOld(h.rows, h.log[j], from);
    }
    if x in ReadIn(h.rows, device, from) {
      var i :| 0 <= i < |h.rows| && h.rows[i].device == device && from <= h.rows[i].at < from + WINDOW
               && h.rows[i].article == x;
      assert h.rows[i] in h.log;
    }
  }

  /**
   * The route's header promises at most so many distinct articles in a window. The promise is kept exactly when the
   * old articles reread in the window are no more than its first opens leave free.
   */
  lemma DistinctReadsIff(limit: int, visits: seq<Visit>, device: string, from: int)
    requires ClockForward(visits)
    ensures var h := After(limit, visits);
            |ReadIn(h.log, device, from)| <= limit <==>
            |Rereads(h, device, from)| <= limit - |ReadIn(h.rows, device, from)|
  {
    ReadsSplit(limit, visits, device, from);
  }

  /** So it is kept in every window in which the device rereads nothing it had opened before the window began. */
  lemma DistinctReadsAreBounded(limit: int, visits: seq<Visit>, device: string, from: int)
    requires limit > 0 && ClockForward(visits)
    requires Rereads(After(limit, visits), device, from) == {}
    ensures |ReadIn(After(limit, visits).log, device, from)| <= limit
  {
    hide Sound, Read, ClockForward, Rereads, ReadIn;
    var h := After(limit, visits);
    var now := if visits == [] then 0 else visits[|visits| - 1].later;
    HistoryIsSound(limit, visits, now);
    DistinctReadsIff(limit, visits, device, from);
    FirstsInWindow(h.rows, device, from);
    SoundMeans(h, limit, now);
    NewArticlesAreBounded(h.rows, limit, device, now, from);
  }

  lemma SoundMeans(h: History, limit: int, now: int)
    requires Sound(h, limit, now)
    ensures Unique(h.rows) && InOrder(h.rows, now) && LimitKept(h.rows, limit)
  {
  }

  lemma FirstOrOld(rows: seq<Row>, read: Row, from: int)
    requires HasRow(rows, read) && from <= read.at < from + WINDOW
    ensures read.article in ReadIn(rows, read.device, from) || OpenedBefore(rows, read.device, read.article, from)
  {
    var i :| 0 <= i < |rows| && rows[i].device == read.device && rows[i].article == read.article
        && rows[i].at <= read.at;
  }

  lemma RereadIsSecondRead(h: History, limit: int, now: int, device: string, from: int)
    requires Sound(h, limit, now) && Rereads(h, device, from) != {}
    ensures !Unique(h.log)
  {
    hide LimitKept, InOrder, HasRow;
    var x :| x in Rereads(h, device, from);
    var j :| 0 <= j < |h.log| && h.log[j].device == device && from <= h.log[j].at < from + WINDOW
             && h.log[j].article == x;
    var i :| 0 <= i < |h.rows| && h.rows[i].device == device && h.rows[i].article == x && h.rows[i].at < from;
    assert h.rows[i] in h.log;
    var k :| 0 <= k < |h.log| && h.log[k] == h.rows[i];
    assert k < j || j < k;
  }

  /** In particular, of every window of a history in which no device reads an article twice. */
  lemma NoRereadingIsBounded(limit: int, visits: seq<Visit>, device: string, from: int)
    requires limit > 0 && ClockForward(visits) && Unique(After(limit, visits).log)
    ensures |ReadIn(After(limit, visits).log, device, from)| <= limit
  {
    var h := After(limit, visits);
    var now := if visits == [] then 0 else visits[|visits| - 1].later;
    HistoryIsSound(limit, visits, now);
    hide Sound, Read, Rereads;
    if Rereads(h, device, from) != {} {
      RereadIsSecondRead(h, limit, now, device, from);
    }
    DistinctReadsAreBounded(limit, visits, device, from);
  }

  // ---- and exceeded by rereading ----------------------------------------------------------------

  /** A different name for every number. */
  function Name(n: nat): string {
    seq(n, _ => 'a')
  }

  /** One article opened at 0, and `n` others when the window has passed. */
  function Table(d: string, n: nat): seq<Row> {
    [Row(d, Name(0), 0)] + seq(n, k requires 0 <= k => Row(d, Name(k + 1), WINDOW))
  }

  lemma TableGrows(d: string, n: nat)
    ensures Table(d, n + 1) == Table(d, n) + [Row(d, Name(n + 1), WINDOW)]
    ensures !Opened(Table(d, n), d, Name(n + 1))
  {
    forall k: nat | k <= n
      ensures Table(d, n)[k].article != Name(n + 1)
    {
      assert |Table(d, n)[k].article| == k;
    }
  }

  lemma TableOfOne(d: string)
    ensures Recent(Table(d, 0), d, 0) == {} && ReadIn(Table(d, 0), d, WINDOW) == {}
  {
  }

  lemma ReadWasOpened(rows: seq<Row>, device: string, article: string, from: int)
    ensures article in ReadIn(rows, device, from) ==> Opened(rows, device, article)
  {
  }

  lemma {:induction false} WindowOfTable(d: string, n: nat)
    ensures |Recent(Table(d, n), d, 0)| <= n
    ensures |ReadIn(Table(d, n), d, WINDOW)| == n
  {
    hide Recent, ReadIn, Opened, Table;
    if n == 0 {
      TableOfOne(d);
    } else {
      WindowOfTable(d, n - 1);
      TableGrows(d, n - 1);
      RecentGrows(Table(d, n - 1), Row(d, Name(n), WINDOW), d, 0);
      ReadInGrows(Table(d, n - 1), Row(d, Name(n), WINDOW), d, WINDOW);
      ReadWasOpened(Table(d, n - 1), d, Name(n), WINDOW);
    }
  }

  ghost predicate UpTo(visits: seq<Visit>, end: int) {
    ClockForward(visits) && forall k :: 0 <= k < |visits| ==> visits[k].later <= end
  }

  lemma OneMoreVisit(limit: int, before: seq<Visit>, v: Visit)
    requires UpTo(before, v.now) && v.now <= v.later
    ensures UpTo(before + [v], v.later) && After(limit, before + [v]) == Read(After(limit, before), limit, v)
  {
    assert (before + [v])[..|before|] == before;
  }

  /** As many new articles as allowed are open to the device when the first has gone out of the window. */
  lemma {:induction false} OpensTable(limit: nat, d: string, n: nat) returns (visits: seq<Visit>)
    requires 0 < limit && n <= limit
    ensures UpTo(visits, WINDOW) && After(limit, visits) == History(Table(d, n), Table(d, n))
  {
    hide Recent, Opened, Table, After, UpTo;
    if n == 0 {
      visits := OpensFirst(limit, d);
    } else {
      var before := OpensTable(limit, d, n - 1);
      var v := Visit(d, Name(n), WINDOW, WINDOW);
      visits := before + [v];
      OneMoreVisit(limit, before, v);
      WindowOfTable(d, n - 1);
      TableGrows(d, n - 1);
    }
  }

  lemma OpensFirst(limit: nat, d: string) returns (visits: seq<Visit>)
    requires 0 < limit
    ensures UpTo(visits, WINDOW) && After(limit, visits) == History(Table(d, 0), Table(d, 0))
  {
    visits := [Visit(d, Name(0), 0, 0)];
    RecentOfNone(d, 0 - WINDOW);
    assert After(limit, []) == History([], []);
  }

  /**
   * For every limit there is a history, and a window of it, in which the rereading of a single article brings one
   * more than allowed.
   */
  lemma RereadingExceeds(limit: nat, d: string) returns (visits: seq<Visit>)
    requires limit > 0
    ensures ClockForward(visits) && Rereads(After(limit, visits), d, WINDOW) == {Name(0)}
    ensures |ReadIn(After(limit, visits).log, d, WINDOW)| == limit + 1
  {
    var before := OpensTable(limit, d, limit);
    var v := Visit(d, Name(0), WINDOW, WINDOW);
    visits := before + [v];
    OneMoreVisit(limit, before, v);
    assert Table(d, limit)[0] == Row(d, Name(0), 0);
    hide Recent, ReadIn, OpenedBefore, Table, After, ClockForward;
    ReadsSplit(limit, visits, d, WINDOW);
    WindowOfTable(d, limit);
    OldInTable(d, limit);
    ReadInGrows(Table(d, limit), Row(d, Name(0), WINDOW), d, WINDOW);
  }

  lemma OldInTable(d: string, n: nat)
    ensures forall x :: OpenedBefore(Table(d, n), d, x, WINDOW) <==> x == Name(0)
  {
    assert Table(d, n)[0] == Row(d, Name(0), 0);
  }
}
