/**
 * From the ranking to the air: the language model words and judges, and everything fails closed
 * (backend/src/radio/radioState.js, buildRadioState; backend/src/radio/radioRules.js, judgeItems).
 * The model is an adversary: its answers are arbitrary inputs.
 */
module RadioGate {
  import opened Common
  import opened News
  import opened Ranking
  import opened StableSort
  import opened SlotPicker

  const HEADLINE_TOP := 30
  const MAX_JUDGE_ROUNDS := 3
  const ALSO_THIS_HOUR := 5
  const MUSIC_MIN := 4
  const MUSIC_MAX := 6

  // ---- a lead whose own title fits ------------------------------------------------------------

  function Without(s: seq<Article>, a: Article): seq<Article> {
    if s == [] then [] else (if s[0] == a then [] else [s[0]]) + Without(s[1..], a)
  }

  /** The lead first, then the other articles, most credible and newest first. */
  function LeadOrder(s: Story): seq<Article> {
    [s.lead] + Without(SortBy(LeadLe, s.articles), s.lead)
  }

  function FirstFitting(order: seq<Article>): (r: Option<Article>)
    ensures r.Some? ==> exists i :: 0 <= i < |order| && order[i] == r.value && r.value.line != ""
                                    && forall j :: 0 <= j < i ==> order[j].line == ""
    ensures r.None? ==> forall i :: 0 <= i < |order| ==> order[i].line == ""
  {
    if order == [] then None
    else if order[0].line != "" then Some(order[0])
    else
      var r := FirstFitting(order[1..]);
      assert forall i :: 1 <= i < |order| ==> order[i] == order[1..][i - 1];
      assert r.Some? ==> exists i :: 1 <= i < |order| && order[i] == r.value && r.value.line != ""
                                     && forall j :: 0 <= j < i ==> order[j].line == "" by {
        if r.Some? {
          var i :| 0 <= i < |order| - 1 && order[1..][i] == r.value
                   && forall j :: 0 <= j < i ==> order[1..][j].line == "";
          assert order[i + 1] == r.value;
        }
      }
      r
  }

  function Fitted(stories: seq<Story>): seq<Story> {
    if stories == [] then []
    else
      var s := stories[|stories| - 1];
      var lead := FirstFitting(LeadOrder(s));
      Fitted(stories[..|stories| - 1]) + (if lead.Some? then [s.(lead := lead.value)] else [])
  }

  function Unfit(stories: seq<Story>): seq<Story> {
    if stories == [] then []
    else
      var s := stories[|stories| - 1];
      Unfit(stories[..|stories| - 1]) + (if FirstFitting(LeadOrder(s)).Some? then [] else [s])
  }

  method ChooseFittingLeads(stories: seq<Story>) returns (fit: seq<Story>, unfit: seq<Story>)
    ensures fit == Fitted(stories) && unfit == Unfit(stories)
    ensures |fit| + |unfit| == |stories|
  {
    hide FirstFitting, LeadOrder;
    fit, unfit := [], [];
    for k := 0 to |stories|
      invariant fit == Fitted(stories[..k]) && unfit == Unfit(stories[..k]) && |fit| + |unfit| == k
    {
      assert stories[..k + 1][..k] == stories[..k];
      var lead := FirstFitting(LeadOrder(stories[k]));
      if lead.Some? {
        fit := fit + [stories[k].(lead := lead.value)];
      } else {
        unfit := unfit + [stories[k]];
      }
    }
    assert stories[..|stories|] == stories;
  }

  lemma {:induction false} WithoutMembers(s: seq<Article>, a: Article, x: Article)
    ensures x in Without(s, a) <==> x in s && x != a
  {
    if s != [] {
      WithoutMembers(s[1..], a, x);
    }
  }

  /**
   * A story is kept exactly when some article of it has a title that fits. Its lead then fits and is one of its
   * articles; a lead that fits already is never replaced, and nothing else about the story changes.
   */
  lemma FittingLead(s: Story)
    requires s.lead in s.articles
    ensures FirstFitting(LeadOrder(s)).Some? <==> exists a :: a in s.articles && a.line != ""
    ensures FirstFitting(LeadOrder(s)).Some? ==>
              var lead := FirstFitting(LeadOrder(s)).value;
              lead in s.articles && lead.line != "" && (s.lead.line != "" ==> lead == s.lead)
  {
    var order := LeadOrder(s);
    forall x
      ensures x in order <==> x in s.articles
    {
      WithoutMembers(SortBy(LeadLe, s.articles), s.lead, x);
      SortByMembers(LeadLe, s.articles, x);
    }
    if a :| a in s.articles && a.line != "" {
      assert a in order;
      var i :| 0 <= i < |order| && order[i] == a;
    }
    assert order[0] == s.lead;
  }

  // ---- the headline call ----------------------------------------------------------------------

  /** One element of the model's answer; None is a flag that is missing or not a boolean. */
  datatype RawItem = RawItem(
    id: string, h: string, ellipsis: bool,
    opinion: Option<bool>, soft: Option<bool>, sensitive: Option<bool>, story: Option<bool>)

  /** Arbitrary: no answer, a malformed one, or items of any shape in any number. */
  datatype Wording = NoAnswer | Malformed | Items(items: seq<RawItem>)

  datatype Verdict = Verdict(opinion: bool, soft: bool, sensitive: bool, story: bool)

  function VerdictOf(it: RawItem): Option<Verdict> {
    if it.opinion.Some? && it.soft.Some? && it.sensitive.Some?
    then Some(Verdict(it.opinion.value, it.soft.value, it.sensitive.value, it.story == Some(true)))
    else None
  }

  predicate GoodLine(it: RawItem) {
    12 <= |it.h| <= HEADLINE_MAX && !it.ellipsis
  }

  /** The last well-formed verdict the answer gives for `id`. */
  function LastVerdict(items: seq<RawItem>, id: string): Option<Verdict> {
    if items == [] then None
    else
      var it := items[|items| - 1];
      if it.id == id && VerdictOf(it).Some? then VerdictOf(it) else LastVerdict(items[..|items| - 1], id)
  }

  /** The last usable line the answer gives for `id`. */
  function LastLine(items: seq<RawItem>, id: string): Option<Line> {
    if items == [] then None
    else
      var it := items[|items| - 1];
      if it.id == id && GoodLine(it) then Some(it.h) else LastLine(items[..|items| - 1], id)
  }

  /** The fitted title of the last story with that lead. */
  function OwnLine(top: seq<Story>, id: string): Option<Line> {
    if top == [] then None
    else if top[|top| - 1].lead.id == id then Some(top[|top| - 1].lead.line)
    else OwnLine(top[..|top| - 1], id)
  }

  /** A line from the answer when it gives a usable one, else the story's own title. */
  function LineFor(top: seq<Story>, items: seq<RawItem>, id: string): Option<Line> {
    if OwnLine(top, id).None? then None
    else if LastLine(items, id).Some? then LastLine(items, id)
    else OwnLine(top, id)
  }

  /** The verdict on `id` is that of the last item for it whose three flags are all given. */
  lemma {:induction false} LastVerdictIs(items: seq<RawItem>, id: string, v: Verdict)
    ensures LastVerdict(items, id) == Some(v) <==>
              exists k :: && 0 <= k < |items| && items[k].id == id
                          && items[k].opinion == Some(v.opinion) && items[k].soft == Some(v.soft)
                          && items[k].sensitive == Some(v.sensitive) && (items[k].story == Some(true) <==> v.story)
                          && forall j :: k < j < |items| && items[j].id == id ==>
                               items[j].opinion.None? || items[j].soft.None? || items[j].sensitive.None?
  {
    if items != [] {
      var n := |items| - 1;
      LastVerdictIs(items[..n], id, v);
      forall k | 0 <= k < n
        ensures items[..n][k] == items[k]
      {
      }
    }
  }

  /** The line of `id` is that of the last item for it that is neither too short nor too long nor left hanging. */
  lemma {:induction false} LastLineIs(items: seq<RawItem>, id: string, l: Line)
    ensures LastLine(items, id) == Some(l) <==>
              exists k :: && 0 <= k < |items| && items[k].id == id && items[k].h == l
                          && 12 <= |items[k].h| <= 90 && !items[k].ellipsis
                          && forall j :: k < j < |items| && items[j].id == id ==>
                               |items[j].h| < 12 || |items[j].h| > 90 || items[j].ellipsis
  {
    if items != [] {
      var n := |items| - 1;
      LastLineIs(items[..n], id, l);
      forall k | 0 <= k < n
        ensures items[..n][k] == items[k]
      {
      }
    }
  }

  function ItemsOf(w: Wording): seq<RawItem> {
    if w.Items? then w.items else []
  }

  /** Each story of the call has its line, none is empty, and nothing else has one. */
  ghost predicate LinesRight(top: seq<Story>, items: seq<RawItem>, lines: map<string, Line>) {
    && (forall id :: id in lines <==> OwnLine(top, id).Some?)
    && (forall id :: id in lines ==> LineFor(top, items, id) == Some(lines[id]) && lines[id] != "")
  }

  /** The verdicts are those the answer gives on the stories of the call. */
  ghost predicate VerdictsRight(lines: map<string, Line>, items: seq<RawItem>, verdicts: map<string, Verdict>) {
    && (forall id :: id in verdicts <==> id in lines && LastVerdict(items, id).Some?)
    && (forall id :: id in verdicts ==> LastVerdict(items, id) == Some(verdicts[id]))
  }

  lemma LinesNext(top: seq<Story>, items: seq<RawItem>, it: RawItem, lines: map<string, Line>)
    requires LinesRight(top, items, lines)
    ensures LinesRight(top, items + [it], if it.id in lines && GoodLine(it) then lines[it.id := it.h] else lines)
  {
    assert (items + [it])[..|items|] == items;
  }

  lemma VerdictsNext(lines: map<string, Line>, items: seq<RawItem>, it: RawItem, verdicts: map<string, Verdict>)
    requires VerdictsRight(lines, items, verdicts)
    ensures VerdictsRight(lines, items + [it],
              if it.id in lines && VerdictOf(it).Some? then verdicts[it.id := VerdictOf(it).value] else verdicts)
  {
    assert (items + [it])[..|items|] == items;
  }

  lemma SameIds(lines: map<string, Line>, more: map<string, Line>, items: seq<RawItem>, verdicts: map<string, Verdict>)
    requires VerdictsRight(lines, items, verdicts) && lines.Keys == more.Keys
    ensures VerdictsRight(more, items, verdicts)
  {
    assert forall id :: id in lines <==> id in lines.Keys;
    assert forall id :: id in more <==> id in more.Keys;
  }

  /** Lines and verdicts for the top of the ranking; whatever the model says, a line fits the screen. */
  method HeadlineCall(top: seq<Story>, w: Wording)
    returns (lines: map<string, Line>, verdicts: map<string, Verdict>)
    requires forall s :: s in top ==> s.lead.line != ""
    ensures LinesRight(top, ItemsOf(w), lines) && VerdictsRight(lines, ItemsOf(w), verdicts)
  {
    lines := OwnLines(top);
    verdicts := map[];
    var got := ItemsOf(w);
    assert VerdictsRight(lines, [], verdicts);
    hide LinesRight, VerdictsRight, VerdictOf, GoodLine;
    for k := 0 to |got|
      invariant LinesRight(top, got[..k], lines) && VerdictsRight(lines, got[..k], verdicts)
    {
      assert got[..k + 1] == got[..k] + [got[k]];
      var it := got[k];
      LinesNext(top, got[..k], it, lines);
      VerdictsNext(lines, got[..k], it, verdicts);
      if it.id in lines {
        if VerdictOf(it).Some? {
          verdicts := verdicts[it.id := VerdictOf(it).value];
        }
        if GoodLine(it) {
          SameIds(lines, lines[it.id := it.h], got[..k + 1], verdicts);
          lines := lines[it.id := it.h];
        }
      }
    }
    assert got[..|got|] == got;
  }

  method OwnLines(top: seq<Story>) returns (lines: map<string, Line>)
    requires forall s :: s in top ==> s.lead.line != ""
    ensures LinesRight(top, [], lines)
  {
    lines := map[];
    for k := 0 to |top|
      invariant LinesRight(top[..k], [], lines)
    {
      assert top[..k + 1][..k] == top[..k];
      assert top[k] in top;
      lines := lines[top[k].lead.id := top[k].lead.line];
    }
    assert top[..|top|] == top;
  }

  // ---- merging the verdict into the ranking ---------------------------------------------------

  /** Some title of the story trips the keyword guard. */
  predicate Tragic(s: Story) {
    exists i :: 0 <= i < |s.articles| && s.articles[i].tragic
  }

  /** What the verdict does to a story: no verdict means sensitive; a verdict may raise, never lower, or drop it. */
  function Merge(s: Story, verdicts: map<string, Verdict>): Option<Story> {
    var s := s.(sensitive := Tragic(s));
    if s.lead.id !in verdicts then Some(s.(sensitive := true))
    else
      var v := verdicts[s.lead.id];
      var s := if v.sensitive then s.(sensitive := true) else s;
      if v.opinion || v.soft || !v.story then None else Some(s)
  }

  /** The editorial facts a story carries once it is merged. */
  ghost predicate Vetted(s: Story, verdicts: map<string, Verdict>) {
    && (Tragic(s) ==> s.sensitive)
    && (s.lead.id !in verdicts ==> s.sensitive)
    && (s.lead.id in verdicts ==>
          var v := verdicts[s.lead.id];
          !v.opinion && !v.soft && v.story && (v.sensitive ==> s.sensitive))
  }

  /** The ranking after the verdicts, in the same order. */
  function Merged(ranked: seq<Story>, verdicts: map<string, Verdict>): seq<Story> {
    if ranked == [] then []
    else
      var n := |ranked| - 1;
      var m := Merge(ranked[n], verdicts);
      Merged(ranked[..n], verdicts) + (if m.Some? then [m.value] else [])
  }

  lemma {:induction false} MergedMembers(ranked: seq<Story>, verdicts: map<string, Verdict>)
    ensures forall s :: s in Merged(ranked, verdicts) ==>
              Vetted(s, verdicts) && exists k :: 0 <= k < |ranked| && Merge(ranked[k], verdicts) == Some(s)
  {
    if ranked != [] {
      MergedMembers(ranked[..|ranked| - 1], verdicts);
    }
  }

  method MergeVerdicts(ranked: seq<Story>, verdicts: map<string, Verdict>) returns (kept: seq<Story>)
    ensures kept == Merged(ranked, verdicts)
    ensures forall s :: s in kept ==> Vetted(s, verdicts)
  {
    kept := [];
    for k := 0 to |ranked|
      invariant kept == Merged(ranked[..k], verdicts)
    {
      assert ranked[..k + 1][..k] == ranked[..k];
      var m := Merge(ranked[k], verdicts);
      if m.Some? {
        kept := kept + [m.value];
      }
    }
    assert ranked[..|ranked|] == ranked;
    MergedMembers(ranked, verdicts);
  }

  // ---- the judge ------------------------------------------------------------------------------

  datatype RawJudgement = RawJudgement(id: string, keep: bool)

  /** Arbitrary: an error, an answer that is not a list, or judgements on any ids in any number. */
  datatype JudgeAnswer = Threw | NotAList | Judgements(list: seq<RawJudgement>)

  function LastJudgement(list: seq<RawJudgement>, id: string): Option<bool> {
    if list == [] then None
    else if list[|list| - 1].id == id then Some(list[|list| - 1].keep)
    else LastJudgement(list[..|list| - 1], id)
  }

  /** The answer says to keep `id`; everything else is a drop. */
  predicate SaysKeep(answer: JudgeAnswer, id: string) {
    answer.Judgements? && LastJudgement(answer.list, id) == Some(true)
  }

  lemma {:induction false} LastJudgementIs(list: seq<RawJudgement>, id: string)
    ensures LastJudgement(list, id) == Some(true) <==>
              exists k :: 0 <= k < |list| && list[k] == RawJudgement(id, true)
                          && forall j :: k < j < |list| ==> list[j].id != id
  {
    if list != [] {
      var n := |list| - 1;
      LastJudgementIs(list[..n], id);
      assert list[n].id == id && list[n].keep ==> list[n] == RawJudgement(id, true);
      forall k | 0 <= k < n
        ensures list[..n][k] == list[k]
      {
      }
    }
  }

  /**
   * A verdict for exactly the items with a Pakistan signal, and "allowed" only if there is a list and the last thing
   * it says of that id is to keep it. An error, a malformed answer and silence are all a drop.
   */
  method JudgeItems(items: seq<Article>, answer: JudgeAnswer) returns (out: map<string, bool>)
    ensures forall id :: id in out <==> exists k :: 0 <= k < |items| && items[k].pakistan && items[k].id == id
    ensures forall id :: id in out ==>
              (out[id] <==>
                && answer.Judgements?
                && exists k :: 0 <= k < |answer.list| && answer.list[k] == RawJudgement(id, true)
                               && forall j :: k < j < |answer.list| ==> answer.list[j].id != id)
    ensures forall id :: id in out ==> (out[id] <==> SaysKeep(answer, id))
  {
    forall id: string | answer.Judgements?
      ensures SaysKeep(answer, id) <==>
                exists k :: 0 <= k < |answer.list| && answer.list[k] == RawJudgement(id, true)
                            && forall j :: k < j < |answer.list| ==> answer.list[j].id != id
    {
      LastJudgementIs(answer.list, id);
    }
    out := map[];
    for k := 0 to |items|
      invariant forall id :: id in out <==> exists j :: 0 <= j < k && items[j].pakistan && items[j].id == id
      invariant forall id :: id in out ==> (out[id] <==> SaysKeep(answer, id))
    {
      if items[k].pakistan {
        out := out[items[k].id := SaysKeep(answer, items[k].id)];
      }
    }
  }

  // ---- pick, judge the picks, replace what the judge drops ------------------------------------

  type Judged = map<string, bool>

  predicate Refused(s: Story, judged: Judged) {
    s.lead.id in judged && !judged[s.lead.id]
  }

  /** Refused, or in need of a verdict that never came. */
  predicate Blocked(s: Story, judged: Judged) {
    Refused(s, judged) || (s.lead.id !in judged && s.lead.pakistan)
  }

  function Unblocked(ranked: seq<Story>, judged: Judged, list: seq<nat>): (r: seq<nat>)
    requires forall k :: 0 <= k < |list| ==> list[k] < |ranked|
    ensures |r| <= |list|
    ensures forall x :: x in r <==> x in list && !Blocked(ranked[x], judged)
  {
    if list == [] then []
    else (if Blocked(ranked[list[0]], judged) then [] else [list[0]]) + Unblocked(ranked, judged, list[1..])
  }

  lemma SlotsInRange(ranked: seq<Story>, s: Slots)
    requires InRange(ranked, s)
    ensures s.headline.Some? ==> s.headline.value < |ranked|
    ensures forall k :: 0 <= k < |s.also| ==> s.also[k] < |ranked|
    ensures forall k :: 0 <= k < |s.music| ==> s.music[k] < |ranked|
  {
    var h := if s.headline.Some? then [s.headline.value] else [];
    var p := Picks(s);
    assert p == h + s.also + s.music;
    assert s.headline.Some? ==> p[0] == s.headline.value;
    assert forall k :: 0 <= k < |s.also| ==> p[|h| + k] == s.also[k];
    assert forall k :: 0 <= k < |s.music| ==> p[|h| + |s.also| + k] == s.music[k];
  }

  /** Take off the air what is blocked; nothing replaces it. */
  function Cut(ranked: seq<Story>, judged: Judged, s: Slots): Slots
    requires s.headline.Some? ==> s.headline.value < |ranked|
    requires forall k :: 0 <= k < |s.also| ==> s.also[k] < |ranked|
    requires forall k :: 0 <= k < |s.music| ==> s.music[k] < |ranked|
  {
    Slots(if s.headline.Some? && Blocked(ranked[s.headline.value], judged) then None else s.headline,
          Unblocked(ranked, judged, s.also), Unblocked(ranked, judged, s.music), s.musicShort)
  }

  /** The ranking without the stories at the given ranks. */
  function Remaining(ranked: seq<Story>, gone: set<nat>, n: nat): (r: seq<Story>)
    requires n <= |ranked|
    ensures forall s :: s in r <==> exists k :: 0 <= k < n && k !in gone && ranked[k] == s
  {
    if n == 0 then [] else Remaining(ranked, gone, n - 1) + (if n - 1 in gone then [] else [ranked[n - 1]])
  }

  function Leads(ranked: seq<Story>, picks: seq<nat>, judged: Judged): seq<Article>
    requires forall k :: 0 <= k < |picks| ==> picks[k] < |ranked|
  {
    if picks == [] then []
    else
      var a := ranked[picks[0]].lead;
      (if a.id in judged then [] else [a]) + Leads(ranked, picks[1..], judged)
  }

  lemma {:induction false} LeadIsListed(ranked: seq<Story>, picks: seq<nat>, judged: Judged, k: nat)
    requires forall k :: 0 <= k < |picks| ==> picks[k] < |ranked|
    requires k < |picks| && ranked[picks[k]].lead.id !in judged
    ensures ranked[picks[k]].lead in Leads(ranked, picks, judged)
  {
    if k > 0 {
      LeadIsListed(ranked, picks[1..], judged, k - 1);
    }
  }

  lemma {:induction false} LeadsAreNew(ranked: seq<Story>, picks: seq<nat>, judged: Judged)
    requires forall k :: 0 <= k < |picks| ==> picks[k] < |ranked|
    ensures forall a :: a in Leads(ranked, picks, judged) ==> a.id !in judged
  {
    if picks != [] {
      LeadsAreNew(ranked, picks[1..], judged);
    }
  }

  /**
   * The record after the rounds held so far, `asked` being the ids put before the judge in each: it holds exactly the
   * ids that were asked about, and for each what the model answered in that very round.
   */
  ghost predicate Recorded(judged: Judged, answers: seq<JudgeAnswer>, asked: seq<set<string>>) {
    && |asked| <= |answers|
    && (forall id :: id in judged ==> exists r :: 0 <= r < |asked| && id in asked[r])
    && (forall r, id :: 0 <= r < |asked| && id in asked[r] ==>
        id in judged && (judged[id] <==> SaysKeep(answers[r], id)))
  }

  lemma RecordRound(judged: Judged, answers: seq<JudgeAnswer>, asked: seq<set<string>>, out: Judged)
    requires Recorded(judged, answers, asked) && |asked| < |answers| && out.Keys !! judged.Keys
    requires forall id :: id in out ==> (out[id] <==> SaysKeep(answers[|asked|], id))
    ensures Recorded(judged + out, answers, asked + [out.Keys])
  {
    var asked' := asked + [out.Keys];
    forall id | id in judged + out
      ensures exists r :: 0 <= r < |asked'| && id in asked'[r]
    {
      if id in out {
        assert id in asked'[|asked|];
      } else {
        var r :| 0 <= r < |asked| && id in asked[r];
        assert id in asked'[r];
      }
    }
  }

  /** After a round, no pick with a Pakistan signal is without a verdict. */
  ghost predicate AllJudged(ranked: seq<Story>, picks: seq<nat>, judged: Judged) {
    forall k :: 0 <= k < |picks| ==>
      picks[k] < |ranked| && (ranked[picks[k]].lead.pakistan ==> ranked[picks[k]].lead.id in judged)
  }

  /** A verdict once recorded stands. */
  ghost predicate Extends(judged: Judged, later: Judged) {
    forall id :: id in judged ==> id in later && later[id] == judged[id]
  }

  method JudgeRound(
    ranked: seq<Story>, picks: seq<nat>, judged0: Judged, answers: seq<JudgeAnswer>, round: nat,
    ghost asked0: seq<set<string>>)
    returns (judged: Judged, rejected: set<nat>, ghost asked: seq<set<string>>)
    requires round == |asked0| < |answers| && Recorded(judged0, answers, asked0)
    requires forall k :: 0 <= k < |picks| ==> picks[k] < |ranked|
    ensures |asked| == round + 1 && Recorded(judged, answers, asked)
    ensures AllJudged(ranked, picks, judged) && Extends(judged0, judged)
    ensures rejected == set i | i in picks && Refused(ranked[i], judged)
  {
    hide Recorded;
    var toJudge := Leads(ranked, picks, judged0);
    LeadsAreNew(ranked, picks, judged0);
    var out := JudgeItems(toJudge, answers[round]);
    forall id | id in out
      ensures id !in judged0
    {
      var j :| 0 <= j < |toJudge| && toJudge[j].pakistan && toJudge[j].id == id;
      assert toJudge[j] in toJudge;
    }
    RecordRound(judged0, answers, asked0, out);
    judged, asked := judged0 + out, asked0 + [out.Keys];
    forall k | 0 <= k < |picks| && ranked[picks[k]].lead.pakistan
      ensures ranked[picks[k]].lead.id in judged
    {
      var a := ranked[picks[k]].lead;
      if a.id !in judged0 {
        LeadIsListed(ranked, picks, judged0, k);
        var j :| 0 <= j < |toJudge| && toJudge[j] == a;
        assert toJudge[j].pakistan && toJudge[j].id == a.id;
      }
    }
    rejected := set i | i in picks && Refused(ranked[i], judged);
  }

  /** `kept` is `all` in the same order, less some stories the judge refused. */
  ghost predicate Thinned(all: seq<Story>, kept: seq<Story>, judged: Judged) {
    if all == [] then kept == []
    else
      || (kept != [] && kept[|kept| - 1] == all[|all| - 1] && Thinned(all[..|all| - 1], kept[..|kept| - 1], judged))
      || (Refused(all[|all| - 1], judged) && Thinned(all[..|all| - 1], kept, judged))
  }

  lemma {:induction false} ThinnedSelf(all: seq<Story>, judged: Judged)
    ensures Thinned(all, all, judged)
  {
    if all != [] {
      ThinnedSelf(all[..|all| - 1], judged);
    }
  }

  lemma {:induction false} ThinnedMembers(all: seq<Story>, kept: seq<Story>, judged: Judged)
    requires Thinned(all, kept, judged)
    ensures forall s :: s in kept ==> s in all
    ensures forall s :: s in all && !Refused(s, judged) ==> s in kept
  {
    if all != [] {
      var n, m := |all| - 1, |kept| - 1;
      assert all == all[..n] + [all[n]];
      if kept != [] && kept[m] == all[n] && Thinned(all[..n], kept[..m], judged) {
        ThinnedMembers(all[..n], kept[..m], judged);
        assert kept == kept[..m] + [kept[m]];
      } else {
        ThinnedMembers(all[..n], kept, judged);
      }
    }
  }

  lemma {:induction false} ThinnedLater(all: seq<Story>, kept: seq<Story>, judged: Judged, later: Judged)
    requires Thinned(all, kept, judged) && Extends(judged, later)
    ensures Thinned(all, kept, later)
  {
    if all != [] {
      var n, m := |all| - 1, |kept| - 1;
      if kept != [] && kept[m] == all[n] && Thinned(all[..n], kept[..m], judged) {
        ThinnedLater(all[..n], kept[..m], judged, later);
      } else {
        ThinnedLater(all[..n], kept, judged, later);
      }
    }
  }

  lemma {:induction false} ThinnedAgain(all: seq<Story>, mid: seq<Story>, kept: seq<Story>, judged: Judged)
    requires Thinned(all, mid, judged) && Thinned(mid, kept, judged)
    ensures Thinned(all, kept, judged)
  {
    if all != [] {
      var n, m, k := |all| - 1, |mid| - 1, |kept| - 1;
      if mid != [] && mid[m] == all[n] && Thinned(all[..n], mid[..m], judged) {
        if kept != [] && kept[k] == mid[m] && Thinned(mid[..m], kept[..k], judged) {
          ThinnedAgain(all[..n], mid[..m], kept[..k], judged);
        } else {
          ThinnedAgain(all[..n], mid[..m], kept, judged);
        }
      } else {
        ThinnedAgain(all[..n], mid, kept, judged);
      }
    }
  }

  lemma {:induction false} RemainingThinned(ranked: seq<Story>, gone: set<nat>, n: nat, judged: Judged)
    requires n <= |ranked| && forall i :: i in gone && i < |ranked| ==> Refused(ranked[i], judged)
    ensures Thinned(ranked[..n], Remaining(ranked, gone, n), judged)
  {
    if n > 0 {
      RemainingThinned(ranked, gone, n - 1, judged);
      assert ranked[..n][..n - 1] == ranked[..n - 1];
      var rest := Remaining(ranked, gone, n - 1);
      assert Remaining(ranked, gone, n) == if n - 1 in gone then rest else rest + [ranked[n - 1]];
      assert (rest + [ranked[n - 1]])[..|rest|] == rest;
    }
  }

  lemma DropRefused(ranked0: seq<Story>, ranked: seq<Story>, gone: set<nat>, judged0: Judged, judged: Judged)
    requires Thinned(ranked0, ranked, judged0) && Extends(judged0, judged)
    requires forall i :: i in gone && i < |ranked| ==> Refused(ranked[i], judged)
    ensures Thinned(ranked0, Remaining(ranked, gone, |ranked|), judged)
  {
    ThinnedLater(ranked0, ranked, judged0, judged);
    RemainingThinned(ranked, gone, |ranked|, judged);
    assert ranked[..|ranked|] == ranked;
    ThinnedAgain(ranked0, ranked, Remaining(ranked, gone, |ranked|), judged);
  }

  /** Final picks `s` out of ranking `ranked`: the uncut picks `full` with everything blocked taken off. */
  ghost predicate Aired(ranked: seq<Story>, entity: bool, judged: Judged, full: Slots, s: Slots) {
    && RightSlots(ranked, entity, 5, 4, 6, full) && ShortIsForced(ranked, entity, 5, 6, full)
    && Presentable(ranked, entity, full)
    && IsCut(ranked, judged, full, s)
  }

  /** `s` is `full` with everything blocked taken off. */
  ghost predicate IsCut(ranked: seq<Story>, judged: Judged, full: Slots, s: Slots) {
    && InRange(ranked, full)
    && (full.headline.Some? ==> full.headline.value < |ranked|)
    && (forall k :: 0 <= k < |full.also| ==> full.also[k] < |ranked|)
    && (forall k :: 0 <= k < |full.music| ==> full.music[k] < |ranked|)
    && s == Cut(ranked, judged, full)
  }

  /**
   * Up to three rounds: pick, have the picks judged, drop the refused stories and pick again. When the rounds run
   * out, whatever is refused or still unjudged is taken off.
   */
  method JudgeRounds(ranked0: seq<Story>, entity: bool, answers: seq<JudgeAnswer>)
    returns (ranked: seq<Story>, s: Slots, judged: Judged, ghost full: Slots, ghost asked: seq<set<string>>)
    requires |answers| == MAX_JUDGE_ROUNDS
    ensures Thinned(ranked0, ranked, judged)
    ensures Recorded(judged, answers, asked)
    ensures Aired(ranked, entity, judged, full, s)
    // Fewer than all the rounds are held only when nothing is left to judge or replace.
    ensures |asked| <= 3 && (|asked| < 3 ==> s == full && AllJudged(ranked, Picks(s), judged))
  {
    hide RightSlots, Presentable, ShortIsForced, Cut, Recorded, Thinned, Extends;
    ranked, judged, asked := ranked0, map[], [];
    NothingRecorded(answers);
    ThinnedSelf(ranked, judged);
    var slots := PickSlots(ranked, entity, ALSO_THIS_HOUR, MUSIC_MIN, MUSIC_MAX);
    var round, clean := 0, false;
    while round < MAX_JUDGE_ROUNDS && !clean
      invariant 0 <= round <= MAX_JUDGE_ROUNDS && |asked| == round
      invariant Thinned(ranked0, ranked, judged)
      invariant Recorded(judged, answers, asked)
      invariant RightSlots(ranked, entity, ALSO_THIS_HOUR, MUSIC_MIN, MUSIC_MAX, slots)
      invariant Presentable(ranked, entity, slots)
      invariant ShortIsForced(ranked, entity, ALSO_THIS_HOUR, MUSIC_MAX, slots)
      invariant clean ==> AllJudged(ranked, Picks(slots), judged)
      invariant clean ==> forall i :: i in Picks(slots) ==> i < |ranked| && !Refused(ranked[i], judged)
      decreases MAX_JUDGE_ROUNDS - round, !clean
    {
      PresentableMeans(ranked, entity, slots);
      ghost var judged0 := judged;
      var rejected;
      judged, rejected, asked := JudgeRound(ranked, Picks(slots), judged, answers, round, asked);
      DropRefused(ranked0, ranked, rejected, judged0, judged);
      if rejected == {} {
        clean := true;
        ThinnedLater(ranked0, ranked, judged0, judged);
        assert forall i :: i in Picks(slots) && Refused(ranked[i], judged) ==> i in rejected;
      } else {
        ranked := Remaining(ranked, rejected, |ranked|);
        slots := PickSlots(ranked, entity, ALSO_THIS_HOUR, MUSIC_MIN, MUSIC_MAX);
      }
      round := round + 1;
    }
    PresentableMeans(ranked, entity, slots);
    SlotsInRange(ranked, slots);
    full := slots;
    if clean {
      NothingToCut(ranked, judged, slots);
      s := slots;
    } else {
      s := Cut(ranked, judged, slots);
    }
  }

  lemma NothingRecorded(answers: seq<JudgeAnswer>)
    ensures Recorded(map[], answers, [])
  {
  }

  lemma {:induction false} KeepsAll(ranked: seq<Story>, judged: Judged, list: seq<nat>)
    requires forall k :: 0 <= k < |list| ==> list[k] < |ranked| && !Blocked(ranked[list[k]], judged)
    ensures Unblocked(ranked, judged, list) == list
  {
    if list != [] {
      KeepsAll(ranked, judged, list[1..]);
    }
  }

  lemma NothingToCut(ranked: seq<Story>, judged: Judged, s: Slots)
    requires InRange(ranked, s) && AllJudged(ranked, Picks(s), judged)
    requires forall i :: i in Picks(s) ==> i < |ranked| && !Refused(ranked[i], judged)
    requires s.headline.Some? ==> s.headline.value < |ranked|
    requires forall k :: 0 <= k < |s.also| ==> s.also[k] < |ranked|
    requires forall k :: 0 <= k < |s.music| ==> s.music[k] < |ranked|
    ensures Cut(ranked, judged, s) == s
  {
    forall i | i in Picks(s)
      ensures i < |ranked| && !Blocked(ranked[i], judged)
    {
      var k :| 0 <= k < |Picks(s)| && Picks(s)[k] == i;
    }
    PicksMembers(s);
    KeepsAll(ranked, judged, s.also);
    KeepsAll(ranked, judged, s.music);
  }

  lemma PicksMembers(s: Slots)
    ensures forall i :: i in Picks(s) <==> s.headline == Some(i) || i in s.also || i in s.music
  {
  }

  // ---- what reaches the air -------------------------------------------------------------------

  /** Whatever the judge answered, an aired story that touches Pakistan has a keep the judge really gave. */
  lemma AirIsCleared(
    ranked: seq<Story>, judged: Judged, answers: seq<JudgeAnswer>, asked: seq<set<string>>, full: Slots, s: Slots,
    i: nat)
    requires IsCut(ranked, judged, full, s) && Recorded(judged, answers, asked) && i in Picks(s)
    ensures i < |ranked| && !Refused(ranked[i], judged)
    ensures var a := ranked[i].lead; a.pakistan ==> a.id in judged && judged[a.id] && WasKept(answers, asked, a.id)
  {
    PicksMembers(s);
    forall r | 0 <= r < |asked| && ranked[i].lead.id in asked[r] && answers[r].Judgements?
      ensures SaysKeep(answers[r], ranked[i].lead.id) <==>
                exists k :: 0 <= k < |answers[r].list| && answers[r].list[k] == RawJudgement(ranked[i].lead.id, true)
                            && forall j :: k < j < |answers[r].list| ==> answers[r].list[j].id != ranked[i].lead.id
    {
      LastJudgementIs(answers[r].list, ranked[i].lead.id);
    }
  }

  /** In some round the judge was asked about `id`, and the last thing its answer says of it is to keep it. */
  ghost predicate WasKept(answers: seq<JudgeAnswer>, asked: seq<set<string>>, id: string) {
    exists r :: && 0 <= r < |asked| && r < |answers| && id in asked[r] && answers[r].Judgements?
                && exists k :: 0 <= k < |answers[r].list| && answers[r].list[k] == RawJudgement(id, true)
                               && forall j :: k < j < |answers[r].list| ==> answers[r].list[j].id != id
  }

  lemma CapsShrink(ranked: seq<Story>, entity: bool, t: set<nat>, t': set<nat>)
    requires WithinCaps(ranked, entity, t) && t' <= t
    ensures WithinCaps(ranked, entity, t')
  {
    forall p
      ensures |OfPublisher(ranked, t', p)| <= MAX_PER_PUBLISHER && |OfTopic(ranked, t', p)| <= MAX_PER_TOPIC
    {
      SubsetSize(OfPublisher(ranked, t', p), OfPublisher(ranked, t, p));
      SubsetSize(OfTopic(ranked, t', p), OfTopic(ranked, t, p));
    }
    SubsetSize(Sports(ranked, t'), Sports(ranked, t));
  }

  lemma {:induction false} UnblockedDistinct(ranked: seq<Story>, judged: Judged, list: seq<nat>)
    requires Distinct(list) && forall k :: 0 <= k < |list| ==> list[k] < |ranked|
    ensures Distinct(Unblocked(ranked, judged, list))
  {
    if list != [] {
      var rest := Unblocked(ranked, judged, list[1..]);
      UnblockedDistinct(ranked, judged, list[1..]);
      forall k | 0 <= k < |rest|
        ensures rest[k] != list[0]
      {
        assert rest[k] in rest;
      }
    }
  }

  lemma DistinctParts(s: Slots)
    ensures Distinct(Picks(s)) <==>
            && Distinct(s.also) && Distinct(s.music)
            && (forall x :: x in s.also ==> x !in s.music)
            && (s.headline.Some? ==> s.headline.value !in s.also && s.headline.value !in s.music)
  {
    var h := if s.headline.Some? then [s.headline.value] else [];
    assert Distinct(h);
    assert Picks(s) == h + s.also + s.music;
    hide Distinct;
    Joined(h + s.also, s.music);
    Joined(h, s.also);
  }

  /** Taking blocked stories off keeps the shared caps and tells no story twice. */
  lemma CapsAfterCut(ranked: seq<Story>, entity: bool, judged: Judged, full: Slots, s: Slots)
    requires IsCut(ranked, judged, full, s)
    requires WithinCaps(ranked, entity, AsSet(Picks(full))) && Distinct(Picks(full))
    ensures WithinCaps(ranked, entity, AsSet(Picks(s))) && Distinct(Picks(s))
  {
    hide WithinCaps;
    PicksMembers(s);
    PicksMembers(full);
    CapsShrink(ranked, entity, AsSet(Picks(full)), AsSet(Picks(s)));
    DistinctParts(full);
    UnblockedDistinct(ranked, judged, full.also);
    UnblockedDistinct(ranked, judged, full.music);
    DistinctParts(s);
  }

  /** A story over music was given an explicit, clean verdict, and no title of it trips the keyword guard. */
  ghost predicate FitForMusic(s: Story, verdicts: map<string, Verdict>) {
    && s.lead.id in verdicts && verdicts[s.lead.id] == Verdict(false, false, false, true)
    && !Tragic(s)
  }

  /** What survived the verdicts and is not sensitive is fit for music. */
  lemma MusicIsVetted(s: Story, verdicts: map<string, Verdict>)
    requires Vetted(s, verdicts)
    ensures !s.sensitive ==> FitForMusic(s, verdicts)
  {
    if s.lead.id in verdicts {
      var v := verdicts[s.lead.id];
      assert v == Verdict(v.opinion, v.soft, v.sensitive, v.story);
    }
  }

  /** Music is free of sensitive stories after the last cut as it was before. */
  lemma MusicAfterCut(ranked: seq<Story>, judged: Judged, full: Slots, s: Slots, i: nat)
    requires IsCut(ranked, judged, full, s) && NoneSensitive(ranked, full.music) && i in s.music
    ensures i < |ranked| && !ranked[i].sensitive
  {
    var k :| 0 <= k < |full.music| && full.music[k] == i;
  }

  /** The stories the wording call is about. */
  function Top(fit: seq<Story>): seq<Story> {
    if |fit| <= HEADLINE_TOP then fit else fit[..HEADLINE_TOP]
  }

  /** What the wording call makes of the ranking: only stories with a fitting lead, less those its verdicts drop. */
  ghost predicate Worded(
    stories: seq<Story>, wording: Wording, lines: map<string, Line>, verdicts: map<string, Verdict>, merged: seq<Story>)
  {
    var top := Top(Fitted(stories));
    && LinesRight(top, ItemsOf(wording), lines) && VerdictsRight(lines, ItemsOf(wording), verdicts)
    && merged == Merged(Fitted(stories), verdicts)
  }

  /** The wording call said of the story, in so many words, that it is news and nothing else, and no title is tragic. */
  ghost predicate SaidToBeNews(s: Story, wording: Wording) {
    && (forall a :: a in s.articles ==> !a.tragic)
    && wording.Items?
    && exists k :: && 0 <= k < |wording.items| && wording.items[k].id == s.lead.id
                   && wording.items[k].opinion == Some(false) && wording.items[k].soft == Some(false)
                   && wording.items[k].sensitive == Some(false) && wording.items[k].story == Some(true)
                   && forall j :: k < j < |wording.items| && wording.items[j].id == s.lead.id ==>
                        var it := wording.items[j]; it.opinion.None? || it.soft.None? || it.sensitive.None?
  }

  lemma FitWasSaid(s: Story, wording: Wording, lines: map<string, Line>, verdicts: map<string, Verdict>)
    requires FitForMusic(s, verdicts) && VerdictsRight(lines, ItemsOf(wording), verdicts)
    ensures SaidToBeNews(s, wording)
  {
    LastVerdictIs(ItemsOf(wording), s.lead.id, Verdict(false, false, false, true));
  }

  /**
   * Everything on air is as the answers have it, not as the record does: what touches Pakistan was kept by the judge,
   * and what is over music was said to be news.
   */
  ghost predicate ClearedOnAir(
    ranked: seq<Story>, wording: Wording, answers: seq<JudgeAnswer>, asked: seq<set<string>>, s: Slots)
  {
    && (forall i :: s.headline == Some(i) || i in s.also || i in s.music ==>
          i < |ranked| && (ranked[i].lead.pakistan ==> WasKept(answers, asked, ranked[i].lead.id)))
    && (forall i :: i in s.music ==> i < |ranked| && SaidToBeNews(ranked[i], wording))
  }

  /**
   * One build, against any language model. What airs are the right picks of the ranking, less what the verdicts and
   * the judge took off. Whatever the model answers to the wording call and to the judge calls: an aired story that
   * touches Pakistan has a keep on record, given in a round that asked about it; a story over music got a clean
   * verdict and passes the keyword guard; the shared caps hold; no story airs twice; and every line fits the screen.
   */
  method BuildState(stories: seq<Story>, entity: bool, wording: Wording, answers: seq<JudgeAnswer>)
    returns (ranked: seq<Story>, s: Slots, lines: map<string, Line>, judged: Judged, verdicts: map<string, Verdict>,
             ghost merged: seq<Story>, ghost full: Slots, ghost asked: seq<set<string>>)
    requires |answers| == MAX_JUDGE_ROUNDS
    requires forall k :: 0 <= k < |stories| ==> stories[k].lead in stories[k].articles
    ensures Worded(stories, wording, lines, verdicts, merged)
    ensures Thinned(merged, ranked, judged) && Recorded(judged, answers, asked)
              && Aired(ranked, entity, judged, full, s)
    ensures ClearedOnAir(ranked, wording, answers, asked, s)
    ensures WithinCaps(ranked, entity, AsSet(Picks(s))) && Distinct(Picks(s))
    ensures forall i :: i in Picks(s) && i < |ranked| ==> AirLine(ranked[i], lines) != ""
  {
    hide WithinCaps, RightSlots, Presentable, Cut, IsCut, NoneSensitive, Recorded, Thinned, Vetted, ClearedOnAir;
    hide Distinct, LineFor, Merged, VerdictsRight;
    var fit, unfit := ChooseFittingLeads(stories);
    FittedLeads(stories);
    lines, verdicts := HeadlineCall(Top(fit), wording);
    var kept := MergeVerdicts(fit, verdicts);
    merged := kept;
    MergedLeads(fit, verdicts);
    ranked, s, judged, full, asked := JudgeRounds(kept, entity, answers);
    ThinnedMembers(merged, ranked, judged);
    PresentableMeans(ranked, entity, full);
    CapsAfterCut(ranked, entity, judged, full, s);
    OnAir(ranked, judged, answers, asked, wording, lines, verdicts, full, s);
    LinesFit(ranked, lines);
  }

  /** What every story on air, and every story over music, has been through. */
  lemma OnAir(
    ranked: seq<Story>, judged: Judged, answers: seq<JudgeAnswer>, asked: seq<set<string>>,
    wording: Wording, lines: map<string, Line>, verdicts: map<string, Verdict>, full: Slots, s: Slots)
    requires IsCut(ranked, judged, full, s) && NoneSensitive(ranked, full.music) && Recorded(judged, answers, asked)
    requires VerdictsRight(lines, ItemsOf(wording), verdicts)
    requires forall x :: x in ranked ==> Vetted(x, verdicts)
    ensures ClearedOnAir(ranked, wording, answers, asked, s)
  {
    hide IsCut, NoneSensitive, Recorded, Vetted, FitForMusic, WasKept, SaidToBeNews, VerdictsRight;
    PicksMembers(s);
    forall i | i in Picks(s)
      ensures i < |ranked| && (ranked[i].lead.pakistan ==> WasKept(answers, asked, ranked[i].lead.id))
    {
      AirIsCleared(ranked, judged, answers, asked, full, s, i);
    }
    forall i | i in s.music
      ensures i < |ranked| && SaidToBeNews(ranked[i], wording)
    {
      MusicAfterCut(ranked, judged, full, s, i);
      assert ranked[i] in ranked;
      MusicIsVetted(ranked[i], verdicts);
      FitWasSaid(ranked[i], wording, lines, verdicts);
    }
  }

  lemma LinesFit(ranked: seq<Story>, lines: map<string, Line>)
    requires forall id :: id in lines ==> lines[id] != ""
    requires forall x :: x in ranked ==> x.lead.line != ""
    ensures forall i :: 0 <= i < |ranked| ==> AirLine(ranked[i], lines) != ""
  {
    assert forall i :: 0 <= i < |ranked| ==> ranked[i] in ranked;
  }

  /** The line on air: the call's line for the lead, or the lead's own fitted title. */
  function AirLine(s: Story, lines: map<string, Line>): Line {
    if s.lead.id in lines then lines[s.lead.id] else s.lead.line
  }

  lemma {:induction false} FittedLeads(stories: seq<Story>)
    requires forall k :: 0 <= k < |stories| ==> stories[k].lead in stories[k].articles
    ensures forall s :: s in Fitted(stories) ==> s.lead in s.articles && s.lead.line != ""
  {
    hide FirstFitting, LeadOrder;
    if stories != [] {
      var n := |stories| - 1;
      FittedLeads(stories[..n]);
      FittingLead(stories[n]);
    }
  }

  lemma MergedLeads(fit: seq<Story>, verdicts: map<string, Verdict>)
    requires forall s :: s in fit ==> s.lead.line != ""
    ensures forall s :: s in Merged(fit, verdicts) ==> s.lead.line != ""
  {
    MergedMembers(fit, verdicts);
    forall s | s in Merged(fit, verdicts)
      ensures s.lead.line != ""
    {
      var k :| 0 <= k < |fit| && Merge(fit[k], verdicts) == Some(s);
      assert fit[k] in fit;
    }
  }
}
