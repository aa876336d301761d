/**
 * Publishing a video once (backend/src/models/database.js, claimVideoPost, markVideoPublished, markVideoFailed,
 * findFreshUnvideoedArticles; backend/src/services/videoAutopost.js, the cycle that calls them): select the open
 * articles, claim one, upload, record. The upload takes long and processes die, so cycles may overlap.
 */
module VideoPosts {
  import opened Common
  import opened StableSort

  const HANG := 45 * 60 * 1000
  const MAX_ATTEMPTS := 2

  datatype Status = Pending | Published | Failed

  /** A row of video_posts; there is at most one for an article, for ever. */
  datatype Row = Row(
    status: Status, attempts: nat, updatedAt: int, event: Option<string>, youtubeId: Option<string>,
    error: Option<string>)

  type Table = map<string, Row>

  // ---- the table ------------------------------------------------------------------------------

  /** May the article be selected? Not once it is published, or was claimed twice, or while an attempt is under way. */
  predicate Open(rows: Table, a: string, now: int) {
    a in rows ==>
      && rows[a].status != Published && rows[a].attempts < MAX_ATTEMPTS
      && !(rows[a].status == Pending && rows[a].updatedAt > now - HANG)
  }

  function Claimed(rows: Table, a: string, event: Option<string>, now: int): Table {
    if a in rows then
      rows[a := rows[a].(status := Pending, attempts := rows[a].attempts + 1, updatedAt := now, error := None,
                         event := if event.Some? then event else rows[a].event)]
    else rows[a := Row(Pending, 1, now, event, None, None)]
  }

  function Recorded(rows: Table, a: string, youtubeId: string, now: int): Table {
    if a in rows then
      rows[a := rows[a].(status := Published, youtubeId := Some(youtubeId), error := None, updatedAt := now)]
    else rows
  }

  /** The message is kept to 500 characters. */
  function Short(error: string): string {
    if |error| <= 500 then error else error[..500]
  }

  function FailedAt(rows: Table, a: string, error: string, now: int): Table {
    if a in rows then rows[a := rows[a].(status := Failed, error := Some(Short(error)), updatedAt := now)] else rows
  }

  /** Those of the articles that are open, in the order given. */
  function OpenOnes(rows: Table, recent: seq<string>, now: int): seq<string> {
    Filter((a: string) => Open(rows, a, now), recent)
  }

  lemma OneMoreOpen(rows: Table, recent: seq<string>, a: string, now: int)
    ensures OpenOnes(rows, recent + [a], now) == OpenOnes(rows, recent, now) + if Open(rows, a, now) then [a] else []
  {
    FilterConcat((a: string) => Open(rows, a, now), recent, [a]);
    assert [a][1..] == [];
  }

  lemma OpenMembers(rows: Table, recent: seq<string>, now: int)
    ensures forall a :: a in OpenOnes(rows, recent, now) <==> a in recent && Open(rows, a, now)
  {
    forall a
      ensures a in OpenOnes(rows, recent, now) <==> a in recent && Open(rows, a, now)
    {
      FilterMembers((a: string) => Open(rows, a, now), recent, a);
    }
  }

  class VideoTable {
    var rows: Table

    constructor ()
      ensures rows == map[]
    {
      rows := map[];
    }

    method ClaimVideoPost(a: string, event: Option<string>, now: int) returns (r: Row)
      modifies this
      ensures rows == Claimed(old(rows), a, event, now) && a in rows && r == rows[a]
      ensures r.status == Pending && r.updatedAt == now && r.error == None
      ensures r.attempts == 1 + if a in old(rows) then old(rows)[a].attempts else 0
      // The claim itself closes the article for as long as the attempt may be under way.
      ensures forall t :: now <= t < now + 2_700_000 ==> !Open(rows, a, t)
      ensures event.Some? ==> r.event == event
      ensures event.None? && a in old(rows) ==> r.event == old(rows)[a].event
      ensures forall b :: b != a && b in old(rows) ==> b in rows && rows[b] == old(rows)[b]
    {
      if a in rows {
        var row := rows[a];
        rows := rows[a := row.(status := Pending, attempts := row.attempts + 1, updatedAt := now, error := None,
                               event := if event.Some? then event else row.event)];
      } else {
        rows := rows[a := Row(Pending, 1, now, event, None, None)];
      }
      r := rows[a];
    }

    method MarkVideoPublished(a: string, youtubeId: string, now: int)
      modifies this
      ensures rows == Recorded(old(rows), a, youtubeId, now)
      ensures a in old(rows) ==>
                var was := old(rows)[a];
                rows == old(rows)[a := Row(Published, was.attempts, now, was.event, Some(youtubeId), None)]
      ensures a in old(rows) ==> forall t :: !Open(rows, a, t)
    {
      if a in rows {
        rows := rows[a := rows[a].(status := Published, youtubeId := Some(youtubeId), error := None, updatedAt := now)];
      }
    }

    /** A second failure closes the article for good; a first one leaves it open. */
    method MarkVideoFailed(a: string, error: string, now: int)
      modifies this
      ensures rows == FailedAt(old(rows), a, error, now)
      ensures a in old(rows) ==>
                && rows[a].status == Failed && rows[a].attempts == old(rows)[a].attempts && rows[a].updatedAt == now
                && rows[a].error.Some? && rows[a].error.value <= error && |rows[a].error.value| <= 500
                && (|error| <= 500 ==> rows[a].error.value == error)
                && forall t :: Open(rows, a, t) <==> old(rows)[a].attempts < 2
    {
      if a in rows {
        rows := rows[a := rows[a].(status := Failed, error := Some(Short(error)), updatedAt := now)];
      }
    }

    /**
     * The recent articles that are open, in the order given: without a row, or failed once, or claimed once at least 45
     * minutes ago and never recorded.
     */
    method FindFreshUnvideoedArticles(recent: seq<string>, now: int) returns (open: seq<string>)
      ensures open == OpenOnes(rows, recent, now)
      ensures forall a :: a in open <==>
                          && a in recent
                          && (a !in rows
                              || (&& rows[a].attempts < 2
                                  && (|| rows[a].status == Failed
                                      || (rows[a].status == Pending && rows[a].updatedAt <= now - 2_700_000))))
    {
      open := [];
      for k := 0 to |recent|
        invariant open == OpenOnes(rows, recent[..k], now)
      {
        OneMoreOpen(rows, recent[..k], recent[k], now);
        assert recent[..k + 1] == recent[..k] + [recent[k]];
        if Open(rows, recent[k], now) {
          open := open + [recent[k]];
        }
      }
      assert recent[..|recent|] == recent;
      OpenMembers(rows, recent, now);
    }
  }

  // ---- the cycles -----------------------------------------------------------------------------

  /** Where a cycle is; `held` are the candidates it selected and has not come to yet. */
  datatype Cycle =
    | Idle
    | Choosing(held: set<string>)
    | Uploading(a: string, since: int, held: set<string>)
    | Uploaded(a: string, since: int, held: set<string>)

  /** `live` counts, for each article, the videos that reached the channel. */
  datatype World = World(now: int, rows: Table, live: map<string, nat>, cycles: seq<Cycle>)

  datatype Step =
    | Select(c: nat, candidates: set<string>)
    | Claim(c: nat, a: string)
    | UploadOk(c: nat)
    | UploadFails(c: nat)
    | Record(c: nat)
    | RecordFails(c: nat)
    | Done(c: nat)
    | Crash(c: nat)
    | Tick(ms: nat)

  function Live(w: World, a: string): nat {
    if a in w.live then w.live[a] else 0
  }

  /** The cycle that moves now stands at `c'`. */
  function To(w: World, c: nat, c': Cycle): World
    requires c < |w.cycles|
  {
    w.(cycles := w.cycles[c := c'])
  }

  function AllOpen(rows: Table, candidates: set<string>, now: int): set<string> {
    set a | a in candidates && Open(rows, a, now)
  }

  /** A step of cycle `c`; one that it is not ready for does nothing. */
  function Move(w: World, s: Step, c: nat): World
    requires c < |w.cycles|
  {
    var now := w.cycles[c];
    match s
    case Select(_, candidates) =>
      if now.Idle? then To(w, c, Choosing(AllOpen(w.rows, candidates, w.now))) else w
    case Claim(_, a) =>
      if now.Choosing? && a in now.held
      then To(w.(rows := Claimed(w.rows, a, None, w.now)), c, Uploading(a, w.now, now.held - {a})) else w
    case UploadOk(_) =>
      if now.Uploading?
      then To(w.(live := w.live[now.a := Live(w, now.a) + 1]), c, Uploaded(now.a, now.since, now.held)) else w
    case UploadFails(_) =>
      if now.Uploading? then To(w.(rows := FailedAt(w.rows, now.a, "", w.now)), c, Choosing(now.held)) else w
    case Record(_) => if now.Uploaded? then To(w.(rows := Recorded(w.rows, now.a, "", w.now)), c, Idle) else w
    // The record is written inside the upload's own try: when writing it fails, the upload is booked as failed.
    case RecordFails(_) =>
      if now.Uploaded? then To(w.(rows := FailedAt(w.rows, now.a, "", w.now)), c, Choosing(now.held)) else w
    case Done(_) => if now.Choosing? then To(w, c, Idle) else w
    case Crash(_) => To(w, c, Idle)
    case Tick(_) => w
  }

  function Next(w: World, s: Step): World {
    if s.Tick? then w.(now := w.now + s.ms) else if s.c < |w.cycles| then Move(w, s, s.c) else w
  }

  /** What selecting and claiming do: only what is open is held, and a claim of it is one attempt more, under way. */
  lemma SelectMeans(w: World, c: nat, candidates: set<string>, a: string)
    requires c < |w.cycles|
    ensures |Next(w, Select(c, candidates)).cycles| == |Next(w, Claim(c, a)).cycles| == |w.cycles|
    ensures w.cycles[c] == Idle ==>
              var w' := Next(w, Select(c, candidates));
              && w'.rows == w.rows && w'.live == w.live && w'.cycles[c].Choosing?
              && (a in w'.cycles[c].held <==>
                    && a in candidates
                    && (a !in w.rows
                        || (&& w.rows[a].attempts < 2
                            && (|| w.rows[a].status == Failed
                                || (w.rows[a].status == Pending && w.rows[a].updatedAt <= w.now - 2_700_000)))))
    ensures w.cycles[c].Choosing? && a in w.cycles[c].held ==>
              var w' := Next(w, Claim(c, a));
              && w'.live == w.live && w'.cycles[c] == Uploading(a, w.now, w.cycles[c].held - {a})
              && a in w'.rows && w'.rows[a].status == Pending && w'.rows[a].updatedAt == w.now
              && w'.rows[a].attempts == 1 + if a in w.rows then w.rows[a].attempts else 0
  {
  }

  /** What an attempt ends with: a video and its record, a failure on record, or a crash that records nothing. */
  lemma AttemptMeans(w: World, c: nat, a: string)
    requires c < |w.cycles| && On(w.cycles[c], a) && a in w.rows
    ensures w.cycles[c].Uploading? ==>
              && Next(w, UploadOk(c)) ==
                 w.(live := w.live[a := 1 + if a in w.live then w.live[a] else 0],
                    cycles := w.cycles[c := Uploaded(a, w.cycles[c].since, w.cycles[c].held)])
              && FailsBy(w, Next(w, UploadFails(c)), c, a)
    ensures w.cycles[c].Uploaded? ==>
              && FailsBy(w, Next(w, RecordFails(c)), c, a)
              && (var w' := Next(w, Record(c));
                  && w'.cycles == w.cycles[c := Idle] && w'.live == w.live && a in w'.rows
                  && w'.rows[a].status == Published && w'.rows[a].attempts == w.rows[a].attempts)
    ensures Next(w, Crash(c)) == w.(cycles := w.cycles[c := Idle])
  {
  }

  /** The attempt is booked as failed, no attempt is taken back, and the cycle goes on to its next candidate. */
  ghost predicate FailsBy(w: World, w': World, c: nat, a: string)
    requires c < |w.cycles| && On(w.cycles[c], a)
  {
    && w'.cycles == w.cycles[c := Choosing(w.cycles[c].held)] && w'.live == w.live
    && a in w.rows && a in w'.rows && w'.rows[a].status == Failed && w'.rows[a].attempts == w.rows[a].attempts
  }

  ghost predicate Begins(w: World) {
    w.rows == map[] && w.live == map[] && forall c :: 0 <= c < |w.cycles| ==> w.cycles[c] == Idle
  }

  ghost predicate IsRun(steps: seq<Step>, worlds: seq<World>) {
    && |worlds| == |steps| + 1 && Begins(worlds[0])
    && forall k :: 0 <= k < |steps| ==> worlds[k + 1] == Next(worlds[k], steps[k])
  }

  // ---- how often an article is claimed, whatever overlaps -------------------------------------

  function Attempts(rows: Table, a: string): nat {
    if a in rows then rows[a].attempts else 0
  }

  predicate Holds(c: Cycle, a: string) {
    !c.Idle? && a in c.held
  }

  function Holding(cycles: seq<Cycle>, a: string): (n: nat)
    ensures n <= |cycles|
  {
    if cycles == [] then 0 else (if Holds(cycles[0], a) then 1 else 0) + Holding(cycles[1..], a)
  }

  lemma {:induction false} HoldingAt(cycles: seq<Cycle>, c: nat, c': Cycle, a: string)
    requires c < |cycles|
    ensures Holding(cycles[c := c'], a) + (if Holds(cycles[c], a) then 1 else 0)
         == Holding(cycles, a) + (if Holds(c', a) then 1 else 0)
    ensures !Holds(cycles[c], a) ==> Holding(cycles, a) < |cycles|
  {
    if c == 0 {
      assert cycles[c := c'] == [c'] + cycles[1..];
    } else {
      assert cycles[c := c'] == [cycles[0]] + cycles[1..][c - 1 := c'];
      HoldingAt(cycles[1..], c - 1, c', a);
    }
  }

  /** Claims made together with claims that may yet come. */
  ghost predicate Bounded(w: World, n: nat, a: string) {
    |w.cycles| == n && Attempts(w.rows, a) + Holding(w.cycles, a) <= n + 1
  }

  lemma StepIsBounded(w: World, s: Step, n: nat, a: string)
    requires n > 0 && Bounded(w, n, a)
    ensures Bounded(Next(w, s), n, a)
  {
    if !s.Tick? && s.c < |w.cycles| {
      HoldingAt(w.cycles, s.c, Next(w, s).cycles[s.c], a);
      assert Next(w, s).cycles == w.cycles[s.c := Next(w, s).cycles[s.c]];
    }
  }

  lemma {:induction false} NoneHeld(cycles: seq<Cycle>, a: string)
    requires forall c :: 0 <= c < |cycles| ==> cycles[c] == Idle
    ensures Holding(cycles, a) == 0
  {
    if cycles != [] {
      NoneHeld(cycles[1..], a);
    }
  }

  /** With n cycles, selecting and claiming in any order, an article is claimed at most n + 1 times: twice, with one. */
  lemma {:induction false} ClaimsAreBounded(steps: seq<Step>, worlds: seq<World>, k: nat, n: nat, a: string)
    requires IsRun(steps, worlds) && k <= |steps| && n == |worlds[0].cycles| && n > 0
    ensures Bounded(worlds[k], n, a) && Attempts(worlds[k].rows, a) <= n + 1
  {
    if k == 0 {
      NoneHeld(worlds[0].cycles, a);
    } else {
      ClaimsAreBounded(steps, worlds, k - 1, n, a);
      StepIsBounded(worlds[k - 1], steps[k - 1], n, a);
    }
  }

  // ---- what a step changes --------------------------------------------------------------------

  /** Cycle `c` is uploading, or has uploaded and not yet recorded, the article. */
  predicate On(c: Cycle, a: string) {
    (c.Uploading? || c.Uploaded?) && c.a == a
  }

  predicate AwaitsRecord(c: Cycle, a: string) {
    c.Uploaded? && c.a == a
  }

  predicate Claims(w: World, s: Step, a: string) {
    s.Claim? && s.a == a && s.c < |w.cycles| && w.cycles[s.c].Choosing? && a in w.cycles[s.c].held
  }

  /** The step claims the article, or is one of the cycle that is on it. */
  predicate Touches(w: World, s: Step, a: string) {
    !s.Tick? && s.c < |w.cycles| && (Claims(w, s, a) || On(w.cycles[s.c], a))
  }

  ghost predicate SameFor(w: World, w': World, a: string) {
    && |w'.cycles| == |w.cycles| && Live(w', a) == Live(w, a)
    && (a in w'.rows <==> a in w.rows) && (a in w.rows ==> w'.rows[a] == w.rows[a])
    && forall c :: 0 <= c < |w.cycles| && (On(w.cycles[c], a) || On(w'.cycles[c], a)) ==> w'.cycles[c] == w.cycles[c]
  }

  lemma Untouched(w: World, s: Step, a: string)
    requires !Touches(w, s, a)
    ensures SameFor(w, Next(w, s), a)
  {
  }

  // ---- when a video is uploaded once ----------------------------------------------------------

  /** Every attempt under way is younger than the hang threshold. */
  ghost predicate InTime(w: World) {
    forall c :: 0 <= c < |w.cycles| && (w.cycles[c].Uploading? || w.cycles[c].Uploaded?) ==>
        w.now < w.cycles[c].since + HANG
  }

  /** An upload's record is lost: to a crash, or because it could not be written. */
  ghost predicate LosesRecord(w: World, s: Step) {
    (s.Crash? || s.RecordFails?) && s.c < |w.cycles| && w.cycles[s.c].Uploaded?
  }

  /** A claim is made only of what is open at that moment, and no upload's record is lost. */
  ghost predicate Careful(w: World, s: Step) {
    (s.Claim? && Claims(w, s, s.a) ==> Open(w.rows, s.a, w.now)) && !LosesRecord(w, s)
  }

  predicate IsPublished(rows: Table, a: string) {
    a in rows && rows[a].status == Published
  }

  ghost predicate SomeAwaits(w: World, a: string) {
    exists c :: 0 <= c < |w.cycles| && AwaitsRecord(w.cycles[c], a)
  }

  ghost predicate SomeOn(w: World, a: string) {
    exists c :: 0 <= c < |w.cycles| && On(w.cycles[c], a)
  }

  /** Whoever is on an article is alone on it, and its row says since when. */
  ghost predicate Alone(w: World, a: string) {
    && (forall c :: 0 <= c < |w.cycles| && On(w.cycles[c], a) ==>
          a in w.rows && w.rows[a].status == Pending && w.rows[a].updatedAt == w.cycles[c].since)
    && (forall c, d :: 0 <= c < d < |w.cycles| ==> !(On(w.cycles[c], a) && On(w.cycles[d], a)))
  }

  /** The article has at most one video, and has it exactly when that is recorded or about to be. */
  ghost predicate OneLive(w: World, a: string) {
    Alone(w, a) && Live(w, a) <= 1 && (Live(w, a) == 1 <==> IsPublished(w.rows, a) || SomeAwaits(w, a))
  }

  lemma SameStaysOne(w: World, w': World, a: string)
    requires OneLive(w, a) && SameFor(w, w', a)
    ensures OneLive(w', a)
  {
    if c :| 0 <= c < |w.cycles| && AwaitsRecord(w.cycles[c], a) {
      assert AwaitsRecord(w'.cycles[c], a);
    }
    if c :| 0 <= c < |w'.cycles| && AwaitsRecord(w'.cycles[c], a) {
      assert AwaitsRecord(w.cycles[c], a);
    }
  }

  /** A claim of what nobody is on and nobody has uploaded. */
  lemma ClaimStaysOne(w: World, s: Step, a: string)
    requires OneLive(w, a) && Claims(w, s, a) && !SomeOn(w, a) && Live(w, a) == 0
    ensures OneLive(Next(w, s), a)
  {
    var w' := Next(w, s);
    assert forall c :: 0 <= c < |w.cycles| ==> !On(w.cycles[c], a);
    assert forall c :: 0 <= c < |w.cycles| && c != s.c ==> w'.cycles[c] == w.cycles[c];
  }

  lemma UploadStaysOne(w: World, s: Step, a: string)
    requires OneLive(w, a) && !s.Tick? && s.c < |w.cycles| && w.cycles[s.c].Uploading? && w.cycles[s.c].a == a
    ensures OneLive(Next(w, s), a)
  {
    var w' := Next(w, s);
    assert On(w.cycles[s.c], a);
    assert forall c :: 0 <= c < |w.cycles| && c != s.c ==> w'.cycles[c] == w.cycles[c] && !On(w.cycles[c], a);
    assert !SomeAwaits(w, a);
    if s.UploadOk? {
      assert AwaitsRecord(w'.cycles[s.c], a);
    }
  }

  lemma RecordStaysOne(w: World, s: Step, a: string)
    requires OneLive(w, a) && !s.Tick? && s.c < |w.cycles| && AwaitsRecord(w.cycles[s.c], a) && !LosesRecord(w, s)
    ensures OneLive(Next(w, s), a)
  {
    var w' := Next(w, s);
    assert On(w.cycles[s.c], a) && SomeAwaits(w, a);
    assert forall c :: 0 <= c < |w.cycles| && c != s.c ==> w'.cycles[c] == w.cycles[c] && !On(w.cycles[c], a);
    if w' == w {
    } else {
      assert s.Record?;
    }
  }

  /** In time, what is open nobody is on, and nobody has uploaded. */
  lemma OpenIsFree(w: World, a: string)
    requires OneLive(w, a) && InTime(w)
    ensures Open(w.rows, a, w.now) ==> !SomeOn(w, a) && Live(w, a) == 0
  {
    if c :| 0 <= c < |w.cycles| && On(w.cycles[c], a) {
      assert w.now < w.cycles[c].since + HANG;
    }
    if c :| 0 <= c < |w.cycles| && AwaitsRecord(w.cycles[c], a) {
      assert On(w.cycles[c], a);
    }
  }

  lemma NextStaysOne(w: World, s: Step, a: string)
    requires OneLive(w, a) && InTime(w) && Careful(w, s)
    ensures OneLive(Next(w, s), a)
  {
    if !Touches(w, s, a) {
      Untouched(w, s, a);
      SameStaysOne(w, Next(w, s), a);
    } else if Claims(w, s, a) {
      OpenIsFree(w, a);
      ClaimStaysOne(w, s, a);
    } else if w.cycles[s.c].Uploading? {
      UploadStaysOne(w, s, a);
    } else {
      RecordStaysOne(w, s, a);
    }
  }

  /** At most one video, and at most two claims. */
  ghost predicate OneUpload(w: World, a: string) {
    OneLive(w, a) && Attempts(w.rows, a) <= MAX_ATTEMPTS
  }

  lemma AttemptsStay(w: World, s: Step, a: string)
    requires Careful(w, s) && Attempts(w.rows, a) <= MAX_ATTEMPTS
    ensures Attempts(Next(w, s).rows, a) <= MAX_ATTEMPTS
  {
  }

  ghost predicate CarefulRun(steps: seq<Step>, worlds: seq<World>, k: nat)
    requires |worlds| == |steps| + 1 && k <= |steps|
  {
    forall i :: 0 <= i < k ==> Careful(worlds[i], steps[i]) && InTime(worlds[i])
  }

  /**
   * However many cycles overlap: if claims are made only of what is still open, attempts end and are recorded within
   * the hang threshold, and no record of an upload is lost, then an article is claimed at most twice and reaches the
   * channel at most once.
   */
  lemma {:induction false} UploadedOnce(steps: seq<Step>, worlds: seq<World>, k: nat, a: string)
    requires IsRun(steps, worlds) && k <= |steps| && CarefulRun(steps, worlds, k)
    ensures OneUpload(worlds[k], a)
  {
    if k > 0 {
      UploadedOnce(steps, worlds, k - 1, a);
      assert worlds[k - 1 + 1] == Next(worlds[k - 1], steps[k - 1]);
      assert Careful(worlds[k - 1], steps[k - 1]) && InTime(worlds[k - 1]);
      hide Next, OneLive, Careful, InTime;
      NextStaysOne(worlds[k - 1], steps[k - 1], a);
      AttemptsStay(worlds[k - 1], steps[k - 1], a);
    }
  }

  /** Published is final: no step of such a run touches the row again. */
  lemma PublishedIsFinal(steps: seq<Step>, worlds: seq<World>, k: nat, a: string)
    requires IsRun(steps, worlds) && k < |steps| && CarefulRun(steps, worlds, k + 1)
    requires a in worlds[k].rows && worlds[k].rows[a].status == Published
    ensures a in worlds[k + 1].rows && worlds[k + 1].rows[a] == worlds[k].rows[a]
  {
    UploadedOnce(steps, worlds, k, a);
    assert worlds[k + 1] == Next(worlds[k], steps[k]);
    assert Careful(worlds[k], steps[k]);
    assert !Touches(worlds[k], steps[k], a);
    Untouched(worlds[k], steps[k], a);
  }

  // ---- one cycle at a time --------------------------------------------------------------------

  ghost predicate OneAtATime(w: World) {
    forall c, d :: 0 <= c < d < |w.cycles| ==> w.cycles[c].Idle? || w.cycles[d].Idle?
  }

  /** What is held is still open, and is not what is being uploaded. */
  ghost predicate HeldIsOpen(w: World) {
    forall c, a :: 0 <= c < |w.cycles| && Holds(w.cycles[c], a) ==>
      Open(w.rows, a, w.now) && !On(w.cycles[c], a)
  }

  /** A cycle's step changes no row but that of the article it claims or is on. */
  lemma OnlyItsArticle(w: World, s: Step, a: string)
    requires !s.Tick? && s.c < |w.cycles| && !(s.Claim? && s.a == a) && !On(w.cycles[s.c], a)
    ensures var w' := Next(w, s); w'.now == w.now && (Open(w'.rows, a, w'.now) <==> Open(w.rows, a, w.now))
  {
    Untouched(w, s, a);
  }

  lemma HeldMeans(w: World, c: nat, a: string)
    requires HeldIsOpen(w) && c < |w.cycles| && Holds(w.cycles[c], a)
    ensures Open(w.rows, a, w.now) && !On(w.cycles[c], a)
  {
  }

  /** What a cycle holds after its own step it held before, or has just found open. */
  lemma HeldBefore(w: World, s: Step, a: string)
    requires !s.Tick? && s.c < |w.cycles| && Holds(Next(w, s).cycles[s.c], a) && Next(w, s) != w
    ensures if w.cycles[s.c].Idle? then s.Select? && Open(w.rows, a, w.now) else Holds(w.cycles[s.c], a)
    ensures !(s.Claim? && s.a == a)
    ensures On(Next(w, s).cycles[s.c], a) ==> On(w.cycles[s.c], a)
  {
  }

  lemma OthersStay(w: World, s: Step, c: nat)
    requires !s.Tick? && c < |w.cycles| && c != s.c
    ensures c < |Next(w, s).cycles| && Next(w, s).cycles[c] == w.cycles[c]
    ensures s.c < |w.cycles| && w.cycles[s.c].Idle? ==> Next(w, s).rows == w.rows && Next(w, s).now == w.now
  {
  }

  lemma StepHolds(w: World, s: Step)
    requires OneAtATime(w) && HeldIsOpen(w)
    ensures HeldIsOpen(Next(w, s))
  {
    var w' := Next(w, s);
    forall c: nat, a | c < |w'.cycles| && Holds(w'.cycles[c], a)
      ensures Open(w'.rows, a, w'.now) && !On(w'.cycles[c], a)
    {
      HeldStays(w, s, c, a);
    }
  }

  lemma HeldStays(w: World, s: Step, c: nat, a: string)
    requires OneAtATime(w) && HeldIsOpen(w) && c < |Next(w, s).cycles| && Holds(Next(w, s).cycles[c], a)
    ensures Open(Next(w, s).rows, a, Next(w, s).now) && !On(Next(w, s).cycles[c], a)
  {
    if s.Tick? {
      HeldMeans(w, c, a);
    } else if s.c >= |w.cycles| || Next(w, s) == w {
      HeldMeans(w, c, a);
    } else {
      hide Next, HeldIsOpen, Holds, On, Open;
      if c == s.c {
        HeldBefore(w, s, a);
        if !w.cycles[c].Idle? {
          HeldMeans(w, c, a);
        } else {
          IdleIsNotOn(w.cycles[c], a);
        }
        OnlyItsArticle(w, s, a);
      } else {
        OthersStay(w, s, c);
        HeldMeans(w, c, a);
        IdleIsNotOn(w.cycles[c], a);
        assert w.cycles[s.c].Idle?;
      }
    }
  }

  lemma IdleIsNotOn(c: Cycle, a: string)
    ensures c.Idle? ==> !On(c, a) && !Holds(c, a)
  {
  }

  lemma NothingHeld(w: World)
    requires Begins(w)
    ensures HeldIsOpen(w)
  {
    forall c, a | 0 <= c < |w.cycles|
      ensures !Holds(w.cycles[c], a)
    {
      assert w.cycles[c] == Idle;
    }
  }

  /** When cycles do not overlap, which is what the singleton job is for, every claim is of an open article. */
  lemma {:induction false} SingletonIsCareful(steps: seq<Step>, worlds: seq<World>, k: nat)
    requires IsRun(steps, worlds) && k <= |steps|
    requires forall i :: 0 <= i < k ==> OneAtATime(worlds[i])
    ensures HeldIsOpen(worlds[k])
    ensures forall a :: k < |steps| && Claims(worlds[k], steps[k], a) ==> Open(worlds[k].rows, a, worlds[k].now)
  {
    if k > 0 {
      SingletonIsCareful(steps, worlds, k - 1);
      StepHolds(worlds[k - 1], steps[k - 1]);
      assert worlds[k - 1 + 1] == Next(worlds[k - 1], steps[k - 1]);
    } else {
      NothingHeld(worlds[0]);
    }
    forall a | k < |steps| && Claims(worlds[k], steps[k], a)
      ensures Open(worlds[k].rows, a, worlds[k].now)
    {
      assert Holds(worlds[k].cycles[steps[k].c], a);
    }
  }

  /** So cycles that do not overlap, end in time and lose no record upload each article at most once. */
  lemma {:induction false} SingletonUploadsOnce(steps: seq<Step>, worlds: seq<World>, k: nat, a: string)
    requires IsRun(steps, worlds) && k <= |steps|
    requires forall i :: 0 <= i < k ==> OneAtATime(worlds[i]) && InTime(worlds[i]) && !LosesRecord(worlds[i], steps[i])
    ensures OneUpload(worlds[k], a)
  {
    forall i | 0 <= i < k
      ensures Careful(worlds[i], steps[i]) && InTime(worlds[i])
    {
      SingletonIsCareful(steps, worlds, i);
    }
    UploadedOnce(steps, worlds, k, a);
  }

  ghost predicate PendingWhileOn(w: World) {
    forall c, a :: 0 <= c < |w.cycles| && On(w.cycles[c], a) ==> a in w.rows && w.rows[a].status == Pending
  }

  lemma PendingStays(w: World, s: Step)
    requires OneAtATime(w) && PendingWhileOn(w)
    ensures PendingWhileOn(Next(w, s))
  {
    var w' := Next(w, s);
    forall c, a | 0 <= c < |w'.cycles| && On(w'.cycles[c], a)
      ensures a in w'.rows && w'.rows[a].status == Pending
    {
      if s.Tick? || s.c >= |w.cycles| || w' == w {
        assert On(w.cycles[c], a);
      } else if c != s.c {
        assert On(w.cycles[c], a) && w.cycles[s.c].Idle?;
      } else if !s.Claim? {
        assert On(w.cycles[c], a);
      }
    }
  }

  lemma {:induction false} SingletonIsPending(steps: seq<Step>, worlds: seq<World>, k: nat)
    requires IsRun(steps, worlds) && k <= |steps| && forall i :: 0 <= i < k ==> OneAtATime(worlds[i])
    ensures PendingWhileOn(worlds[k])
  {
    if k > 0 {
      SingletonIsPending(steps, worlds, k - 1);
      PendingStays(worlds[k - 1], steps[k - 1]);
      assert worlds[k - 1 + 1] == Next(worlds[k - 1], steps[k - 1]);
    }
  }

  /**
   * Cycles that do not overlap never claim an article again once it is published, and leave its row alone, however
   * long they take and whatever crashes or cannot be recorded.
   */
  lemma SingletonPublishedIsFinal(steps: seq<Step>, worlds: seq<World>, k: nat, a: string)
    requires IsRun(steps, worlds) && k < |steps| && forall i :: 0 <= i < k ==> OneAtATime(worlds[i])
    requires a in worlds[k].rows && worlds[k].rows[a].status == Published
    ensures !Claims(worlds[k], steps[k], a)
    ensures a in worlds[k + 1].rows && worlds[k + 1].rows[a] == worlds[k].rows[a]
  {
    SingletonIsCareful(steps, worlds, k);
    SingletonIsPending(steps, worlds, k);
    assert worlds[k + 1] == Next(worlds[k], steps[k]);
    assert !Touches(worlds[k], steps[k], a);
    Untouched(worlds[k], steps[k], a);
  }

  // ---- when a lost record leads to another upload ----------------------------------------------

  ghost predicate Path(steps: seq<Step>, worlds: seq<World>) {
    && |worlds| == |steps| + 1
    && forall k :: 0 <= k < |steps| ==> worlds[k + 1] == Next(worlds[k], steps[k])
  }

  /** There is a way on in which one more video of the article reaches the channel. */
  ghost predicate MayGoLive(w: World, a: string) {
    exists steps: seq<Step>, worlds: seq<World> ::
      Path(steps, worlds) && worlds[0] == w && Live(worlds[|steps|], a) > Live(w, a)
  }

  /** No cycle is on the article or holds it. */
  ghost predicate Released(w: World, a: string) {
    forall c :: 0 <= c < |w.cycles| ==> !On(w.cycles[c], a) && !Holds(w.cycles[c], a)
  }

  /** The article is closed for good: whatever the clock says, it is not open. */
  predicate ClosedForGood(rows: Table, a: string) {
    a in rows && (rows[a].status == Published || rows[a].attempts >= MAX_ATTEMPTS)
  }

  lemma ClosedStays(w: World, s: Step, a: string)
    requires ClosedForGood(w.rows, a) && Released(w, a)
    ensures ClosedForGood(Next(w, s).rows, a) && Released(Next(w, s), a) && Live(Next(w, s), a) == Live(w, a)
  {
    var w' := Next(w, s);
    assert s.Claim? && s.c < |w.cycles| && w.cycles[s.c].Choosing? && s.a == a ==> !Holds(w.cycles[s.c], a);
    Untouched(w, s, a);
    forall c | 0 <= c < |w'.cycles|
      ensures !On(w'.cycles[c], a) && !Holds(w'.cycles[c], a)
    {
      assert !On(w.cycles[c], a) && !Holds(w.cycles[c], a);
    }
  }

  lemma {:induction false} ClosedAlongPath(steps: seq<Step>, worlds: seq<World>, a: string, k: nat)
    requires Path(steps, worlds) && k <= |steps| && ClosedForGood(worlds[0].rows, a) && Released(worlds[0], a)
    ensures ClosedForGood(worlds[k].rows, a) && Released(worlds[k], a) && Live(worlds[k], a) == Live(worlds[0], a)
  {
    hide Next, Released, ClosedForGood;
    if k > 0 {
      ClosedAlongPath(steps, worlds, a, k - 1);
      ClosedStays(worlds[k - 1], steps[k - 1], a);
      assert worlds[k - 1 + 1] == Next(worlds[k - 1], steps[k - 1]);
    }
  }

  /** A cycle at rest can bring an open article to the channel. */
  lemma OneAttempt(w: World, a: string)
    requires w.cycles != [] && w.cycles[0].Idle? && Open(w.rows, a, w.now)
    ensures Live(Next(Next(Next(w, Select(0, {a})), Claim(0, a)), UploadOk(0)), a) == Live(w, a) + 1
  {
    assert AllOpen(w.rows, {a}, w.now) == {a};
    var w1 := Next(w, Select(0, {a}));
    assert w1.cycles[0] == Choosing({a});
    var w2 := Next(w1, Claim(0, a));
    assert w2.cycles[0] == Uploading(a, w.now, {a} - {a});
  }

  /** What has been let go of may reach the channel again exactly when it is not closed for good. */
  lemma MayGoLiveIff(w: World, a: string)
    requires w.cycles != [] && Released(w, a)
    ensures MayGoLive(w, a) <==> !ClosedForGood(w.rows, a)
  {
    if ClosedForGood(w.rows, a) {
      forall steps: seq<Step>, worlds: seq<World> | Path(steps, worlds) && worlds[0] == w
        ensures Live(worlds[|steps|], a) <= Live(w, a)
      {
        ClosedAlongPath(steps, worlds, a, |steps|);
      }
    } else {
      var late := if a in w.rows && w.rows[a].updatedAt > w.now then w.rows[a].updatedAt - w.now else 0;
      var w1 := Next(w, Crash(0));
      var w2 := Next(w1, Tick(late + HANG));
      OneAttempt(w2, a);
      var w3 := Next(w2, Select(0, {a}));
      var w4 := Next(w3, Claim(0, a));
      var w5 := Next(w4, UploadOk(0));
      assert Live(w5, a) == Live(w, a) + 1;
      hide Next, Live;
      assert Path([Crash(0), Tick(late + HANG), Select(0, {a}), Claim(0, a), UploadOk(0)], [w, w1, w2, w3, w4, w5]);
    }
  }

  lemma {:induction false} CyclesFixed(steps: seq<Step>, worlds: seq<World>, k: nat)
    requires IsRun(steps, worlds) && k <= |steps|
    ensures |worlds[k].cycles| == |worlds[0].cycles|
  {
    if k > 0 {
      CyclesFixed(steps, worlds, k - 1);
      assert worlds[k - 1 + 1] == Next(worlds[k - 1], steps[k - 1]);
    }
  }

  /**
   * One cycle on its own, in any run: when the record of an upload is lost, to a crash or because it could not be
   * written, another upload of the article may follow exactly when this was its first attempt.
   */
  lemma LostRecordUploadsAgainIff(steps: seq<Step>, worlds: seq<World>, k: nat, a: string)
    requires IsRun(steps, worlds) && |worlds[0].cycles| == 1 && k < |steps|
    requires LosesRecord(worlds[k], steps[k]) && worlds[k].cycles[steps[k].c].a == a
    ensures MayGoLive(worlds[k + 1], a) <==> Attempts(worlds[k].rows, a) < MAX_ATTEMPTS
  {
    CyclesFixed(steps, worlds, k);
    CyclesFixed(steps, worlds, k + 1);
    forall i | 0 <= i < k
      ensures OneAtATime(worlds[i])
    {
      CyclesFixed(steps, worlds, i);
    }
    SingletonIsCareful(steps, worlds, k);
    SingletonIsPending(steps, worlds, k);
    var w, w' := worlds[k], worlds[k + 1];
    assert w' == Next(w, steps[k]);
    assert On(w.cycles[0], a);
    if Holds(w.cycles[0], a) {
      HeldMeans(w, 0, a);
    }
    assert w'.cycles[0] == if steps[k].Crash? then Idle else Choosing(w.cycles[0].held);
    assert Released(w', a);
    assert ClosedForGood(w'.rows, a) <==> Attempts(w.rows, a) >= MAX_ATTEMPTS;
    MayGoLiveIff(w', a);
  }

  // ---- when a claim publishes again ------------------------------------------------------------

  /** A careful way on: claims of open articles only, attempts in time, no record lost. */
  ghost predicate CarefulPath(steps: seq<Step>, worlds: seq<World>) {
    Path(steps, worlds) && forall k :: 0 <= k < |steps| ==> Careful(worlds[k], steps[k]) && InTime(worlds[k])
  }

  /** Though everyone is careful from here on, the article may reach the channel twice. */
  ghost predicate MayBeTwice(w: World, a: string) {
    exists steps: seq<Step>, worlds: seq<World> ::
      CarefulPath(steps, worlds) && worlds[0] == w && Live(worlds[|steps|], a) >= 2
  }

  lemma {:induction false} OneAlongPath(steps: seq<Step>, worlds: seq<World>, a: string, k: nat)
    requires CarefulPath(steps, worlds) && OneLive(worlds[0], a) && k <= |steps|
    ensures OneLive(worlds[k], a)
  {
    hide Next, OneLive, Careful, InTime;
    if k > 0 {
      OneAlongPath(steps, worlds, a, k - 1);
      NextStaysOne(worlds[k - 1], steps[k - 1], a);
      assert worlds[k - 1 + 1] == Next(worlds[k - 1], steps[k - 1]);
    }
  }

  lemma ClaimIsInTime(w: World, s: Step, a: string)
    requires InTime(w) && Claims(w, s, a)
    ensures InTime(Next(w, s)) && Live(Next(w, s), a) == Live(w, a)
    ensures Next(w, s).cycles == w.cycles[s.c := Uploading(a, w.now, w.cycles[s.c].held - {a})]
  {
  }

  lemma UploadCounts(w: World, c: nat, a: string)
    requires InTime(w) && c < |w.cycles| && w.cycles[c].Uploading? && w.cycles[c].a == a
    ensures Live(Next(w, UploadOk(c)), a) == Live(w, a) + 1 && InTime(Next(w, UploadOk(c))) && Careful(w, UploadOk(c))
    ensures Next(w, UploadOk(c)).cycles == w.cycles[c := Uploaded(a, w.cycles[c].since, w.cycles[c].held)]
  {
  }

  /** A claim is to blame for a second video exactly when the article is live, or another cycle is on it. */
  lemma ClaimMayBeTwiceIff(w: World, s: Step, a: string)
    requires OneLive(w, a) && InTime(w) && Claims(w, s, a)
    ensures MayBeTwice(Next(w, s), a) <==> SomeOn(w, a) || Live(w, a) == 1
  {
    var c, w1 := s.c, Next(w, s);
    ClaimIsInTime(w, s, a);
    if Live(w, a) == 1 {
      UploadCounts(w1, c, a);
      assert CarefulPath([UploadOk(c)], [w1, Next(w1, UploadOk(c))]);
    } else if SomeOn(w, a) {
      var d :| 0 <= d < |w.cycles| && On(w.cycles[d], a);
      assert !AwaitsRecord(w.cycles[d], a) && d != c;
      UploadCounts(w1, d, a);
      var w2 := Next(w1, UploadOk(d));
      UploadCounts(w2, c, a);
      var w3 := Next(w2, UploadOk(c));
      hide Next, Careful, InTime, OneLive;
      assert CarefulPath([UploadOk(d), UploadOk(c)], [w1, w2, w3]);
    } else {
      ClaimStaysOne(w, s, a);
      forall steps: seq<Step>, worlds: seq<World> | CarefulPath(steps, worlds) && worlds[0] == w1
        ensures Live(worlds[|steps|], a) <= 1
      {
        OneAlongPath(steps, worlds, a, |steps|);
      }
    }
  }

  /** A crash takes the cycle that is on the article. */
  ghost predicate Abandons(w: World, s: Step, a: string) {
    s.Crash? && s.c < |w.cycles| && On(w.cycles[s.c], a)
  }

  /** A pending row is somebody's work under way. */
  ghost predicate PendingIsOn(w: World, a: string) {
    a in w.rows && w.rows[a].status == Pending ==> SomeOn(w, a)
  }

  lemma PendingIsOnStays(w: World, s: Step, a: string)
    requires PendingIsOn(w, a) && Alone(w, a) && !Abandons(w, s, a)
    ensures PendingIsOn(Next(w, s), a)
  {
    var w' := Next(w, s);
    if Touches(w, s, a) {
      assert w'.cycles[s.c].Uploading? || w'.cycles[s.c].Uploaded? ==> On(w'.cycles[s.c], a);
    } else {
      Untouched(w, s, a);
      if c :| 0 <= c < |w.cycles| && On(w.cycles[c], a) {
        assert On(w'.cycles[c], a);
      }
    }
  }

  lemma AloneInRun(steps: seq<Step>, worlds: seq<World>, k: nat, a: string)
    requires IsRun(steps, worlds) && k <= |steps| && CarefulRun(steps, worlds, k)
    ensures Alone(worlds[k], a)
  {
    UploadedOnce(steps, worlds, k, a);
  }

  lemma {:induction false} PendingIsOnInRun(steps: seq<Step>, worlds: seq<World>, k: nat, a: string)
    requires IsRun(steps, worlds) && k <= |steps| && CarefulRun(steps, worlds, k)
    requires forall i :: 0 <= i < k ==> !Abandons(worlds[i], steps[i], a)
    ensures PendingIsOn(worlds[k], a)
  {
    if k > 0 {
      AloneInRun(steps, worlds, k - 1, a);
      assert worlds[k - 1 + 1] == Next(worlds[k - 1], steps[k - 1]);
      hide Next, IsRun, PendingIsOn, Abandons, Alone, Careful, InTime;
      PendingIsOnInRun(steps, worlds, k - 1, a);
      PendingIsOnStays(worlds[k - 1], steps[k - 1], a);
    }
  }

  /**
   * In every careful run without a crash, the next claim, of whatever was selected however long ago, may bring a
   * second video exactly when the article's row says at that moment that it is published or pending.
   */
  lemma StaleClaimIff(steps: seq<Step>, worlds: seq<World>, k: nat, a: string)
    requires IsRun(steps, worlds) && k < |steps| && CarefulRun(steps, worlds, k) && InTime(worlds[k])
    requires forall i :: 0 <= i < k ==> !Abandons(worlds[i], steps[i], a)
    requires Claims(worlds[k], steps[k], a)
    ensures MayBeTwice(worlds[k + 1], a) <==> a in worlds[k].rows && worlds[k].rows[a].status != Failed
    // For an article not yet claimed twice, that is the case exactly when it is no longer open.
    ensures Attempts(worlds[k].rows, a) < MAX_ATTEMPTS ==>
              (MayBeTwice(worlds[k + 1], a) <==> !Open(worlds[k].rows, a, worlds[k].now))
  {
    var w := worlds[k];
    UploadedOnce(steps, worlds, k, a);
    PendingIsOnInRun(steps, worlds, k, a);
    assert worlds[k + 1] == Next(w, steps[k]);
    hide IsRun, CarefulRun, Next, MayBeTwice;
    ClaimMayBeTwiceIff(w, steps[k], a);
    RowTells(w, a);
  }

  lemma RowTells(w: World, a: string)
    requires OneLive(w, a) && InTime(w) && PendingIsOn(w, a)
    ensures SomeOn(w, a) || Live(w, a) == 1 <==> a in w.rows && w.rows[a].status != Failed
    ensures Attempts(w.rows, a) < MAX_ATTEMPTS ==>
              (a in w.rows && w.rows[a].status != Failed <==> !Open(w.rows, a, w.now))
  {
    if c :| 0 <= c < |w.cycles| && AwaitsRecord(w.cycles[c], a) {
      assert On(w.cycles[c], a);
    }
    if c :| 0 <= c < |w.cycles| && On(w.cycles[c], a) {
      assert w.now < w.cycles[c].since + HANG;
    }
  }

  // ---- runs that show it ------------------------------------------------------------------------

  lemma AttemptThenCrash(w: World, a: string)
    requires w.cycles == [Idle] && Open(w.rows, a, w.now)
    ensures var w1 := w.(cycles := [Choosing({a})]);
            var w2 := w.(rows := Claimed(w.rows, a, None, w.now), cycles := [Uploading(a, w.now, {})]);
            var w3 := w2.(live := w.live[a := Live(w, a) + 1], cycles := [Uploaded(a, w.now, {})]);
            && Next(w, Select(0, {a})) == w1 && Next(w1, Claim(0, a)) == w2
            && Next(w2, UploadOk(0)) == w3 && Next(w3, Crash(0)) == w3.(cycles := [Idle])
  {
    assert AllOpen(w.rows, {a}, w.now) == {a};
    var w1 := w.(cycles := [Choosing({a})]);
    var up := Uploading(a, w.now, {a} - {a});
    assert up == Uploading(a, w.now, {});
    assert w1.cycles[0 := up] == [up];
  }

  /**
   * The comment on the claim says that writing before the upload keeps a crash after it from a second upload. It
   * delays it: when the hang threshold has passed, a cycle on its own selects the article again and uploads it again.
   */
  lemma CrashUploadsTwice(a: string) returns (steps: seq<Step>, worlds: seq<World>)
    ensures IsRun(steps, worlds) && |worlds| == 10
    ensures forall k :: 0 <= k < |worlds| ==> OneAtATime(worlds[k]) && InTime(worlds[k])
    ensures Live(worlds[9], a) == 2
  {
    hide Next;
    var w0 := World(0, map[], map[], [Idle]);
    AttemptThenCrash(w0, a);
    var rows := Claimed(map[], a, None, 0);
    var w3 := World(0, rows, map[a := 1], [Uploaded(a, 0, {})]);
    var w4 := w3.(cycles := [Idle]);
    var w5 := w4.(now := HANG);
    assert Next(w4, Tick(HANG)) == w5 by { TickMoves(w4, HANG); }
    AttemptThenCrash(w5, a);
    var w7 := w5.(rows := Claimed(rows, a, None, HANG), cycles := [Uploading(a, HANG, {})]);
    var w8 := w7.(live := map[a := 2], cycles := [Uploaded(a, HANG, {})]);
    assert w5.live[a := 2] == map[a := 2];
    steps := [Select(0, {a}), Claim(0, a), UploadOk(0), Crash(0), Tick(HANG),
              Select(0, {a}), Claim(0, a), UploadOk(0), Crash(0)];
    worlds := [w0, w0.(cycles := [Choosing({a})]), w0.(rows := rows, cycles := [Uploading(a, 0, {})]), w3, w4, w5,
               w5.(cycles := [Choosing({a})]), w7, w8, w8.(cycles := [Idle])];
  }

  lemma TickMoves(w: World, ms: nat)
    ensures Next(w, Tick(ms)) == w.(now := w.now + ms)
  {
  }

  lemma Extend(steps: seq<Step>, worlds: seq<World>, s: Step)
    requires IsRun(steps, worlds)
    ensures IsRun(steps + [s], worlds + [Next(worlds[|steps|], s)])
  {
  }

  /** `k` of `n` cycles have selected the article, and `m` of these have claimed it. */
  function Stage(n: nat, k: nat, m: nat, a: string): seq<Cycle> {
    seq(n, c => if c < m then Uploading(a, 0, {}) else if c < k then Choosing({a}) else Idle)
  }

  /** The first cycle tries once and fails, which leaves the article open with one attempt. */
  lemma FirstAttemptFails(n: nat, a: string) returns (steps: seq<Step>, worlds: seq<World>)
    requires n > 0
    ensures IsRun(steps, worlds) && |worlds[0].cycles| == n
    ensures var w := worlds[|steps|];
            w.now == 0 && w.cycles == Stage(n, 0, 0, a) && Attempts(w.rows, a) == 1 && Open(w.rows, a, 0)
  {
    var w0 := World(0, map[], map[], Stage(n, 0, 0, a));
    steps, worlds := [], [w0];
    var w1 := Next(w0, Select(0, {a}));
    assert AllOpen(w0.rows, {a}, 0) == {a};
    var w2 := Next(w1, Claim(0, a));
    assert w2.cycles[0] == Uploading(a, 0, {a} - {a});
    var w3 := Next(w2, UploadFails(0));
    var w4 := Next(w3, Done(0));
    assert w4.cycles == Stage(n, 0, 0, a);
    Extend(steps, worlds, Select(0, {a}));
    Extend([Select(0, {a})], [w0, w1], Claim(0, a));
    Extend([Select(0, {a}), Claim(0, a)], [w0, w1, w2], UploadFails(0));
    Extend([Select(0, {a}), Claim(0, a), UploadFails(0)], [w0, w1, w2, w3], Done(0));
    steps, worlds := [Select(0, {a}), Claim(0, a), UploadFails(0), Done(0)], [w0, w1, w2, w3, w4];
  }

  lemma {:induction false} AllSelect(n: nat, k: nat, a: string) returns (steps: seq<Step>, worlds: seq<World>)
    requires 0 < n && k <= n
    ensures IsRun(steps, worlds) && |worlds[0].cycles| == n
    ensures var w := worlds[|steps|];
            w.now == 0 && w.cycles == Stage(n, k, 0, a) && Attempts(w.rows, a) == 1 && Open(w.rows, a, 0)
  {
    if k == 0 {
      steps, worlds := FirstAttemptFails(n, a);
    } else {
      steps, worlds := AllSelect(n, k - 1, a);
      var w, s := worlds[|steps|], Select(k - 1, {a});
      Extend(steps, worlds, s);
      assert AllOpen(w.rows, {a}, 0) == {a};
      assert Next(w, s).cycles == Stage(n, k, 0, a);
      steps, worlds := steps + [s], worlds + [Next(w, s)];
    }
  }

  /** The bound on claims is reached: one failed attempt, then n cycles select before any of them claims. */
  lemma {:induction false} ClaimsReachBound(n: nat, m: nat, a: string) returns (steps: seq<Step>, worlds: seq<World>)
    requires 0 < n && m <= n
    ensures IsRun(steps, worlds) && |worlds[0].cycles| == n
    ensures worlds[|steps|].now == 0 && worlds[|steps|].cycles == Stage(n, n, m, a)
    ensures Attempts(worlds[|steps|].rows, a) == m + 1
  {
    if m == 0 {
      steps, worlds := AllSelect(n, n, a);
    } else {
      steps, worlds := ClaimsReachBound(n, m - 1, a);
      var w, s := worlds[|steps|], Claim(m - 1, a);
      Extend(steps, worlds, s);
      assert Next(w, s).cycles[m - 1] == Uploading(a, 0, {a} - {a}) == Uploading(a, 0, {}) by {
        assert {a} - {a} == {};
      }
      assert Next(w, s).cycles == Stage(n, n, m, a);
      steps, worlds := steps + [s], worlds + [Next(w, s)];
    }
  }

  lemma BothSelect(w: World, a: string)
    requires w.cycles == [Idle, Idle] && Open(w.rows, a, w.now)
    ensures var w1 := w.(cycles := [Choosing({a}), Idle]);
            && Next(w, Select(0, {a})) == w1
            && Next(w1, Select(1, {a})) == w.(cycles := [Choosing({a}), Choosing({a})])
  {
    assert AllOpen(w.rows, {a}, w.now) == {a};
  }

  /** Cycle `c`, holding only this article, claims it, uploads it and records the upload. */
  lemma PublishesFrom(w: World, c: nat, a: string)
    requires c < |w.cycles| && w.cycles[c] == Choosing({a})
    ensures var w1 := To(w.(rows := Claimed(w.rows, a, None, w.now)), c, Uploading(a, w.now, {}));
            var w2 := To(w1.(live := w.live[a := Live(w, a) + 1]), c, Uploaded(a, w.now, {}));
            && Next(w, Claim(c, a)) == w1 && Next(w1, UploadOk(c)) == w2
            && Next(w2, Record(c)) == To(w2.(rows := Recorded(w2.rows, a, "", w.now)), c, Idle)
  {
    assert {a} - {a} == {};
  }

  /**
   * When cycles overlap, a claim of what was selected before another cycle published it publishes it again, though no
   * time passes and nothing crashes: the claim does not look at the row it takes over.
   */
  lemma StaleClaimUploadsTwice(a: string) returns (steps: seq<Step>, worlds: seq<World>)
    ensures IsRun(steps, worlds) && forall k :: 0 <= k < |steps| ==> !steps[k].Tick? && !steps[k].Crash?
    ensures Live(worlds[|steps|], a) == 2
  {
    var w0 := World(0, map[], map[], [Idle, Idle]);
    var w1 := w0.(cycles := [Choosing({a}), Idle]);
    var w2 := w0.(cycles := [Choosing({a}), Choosing({a})]);
    BothSelect(w0, a);
    hide Next, Claimed, Recorded, Open;
    PublishesFrom(w2, 0, a);
    var w3 := To(w2.(rows := Claimed(w2.rows, a, None, 0)), 0, Uploading(a, 0, {}));
    var w4 := To(w3.(live := w2.live[a := 1]), 0, Uploaded(a, 0, {}));
    var w5 := To(w4.(rows := Recorded(w4.rows, a, "", 0)), 0, Idle);
    PublishesFrom(w5, 1, a);
    var w6 := To(w5.(rows := Claimed(w5.rows, a, None, 0)), 1, Uploading(a, 0, {}));
    var w7 := To(w6.(live := w5.live[a := 2]), 1, Uploaded(a, 0, {}));
    steps := [Select(0, {a}), Select(1, {a}), Claim(0, a), UploadOk(0), Record(0), Claim(1, a), UploadOk(1)];
    worlds := [w0, w1, w2, w3, w4, w5, w6, w7];
  }
}
