/** What a build does to the stories, told on their fields: consequences of the contracts in RadioGate. */
module RadioLaws {
  import opened Common
  import opened News
  import opened StableSort
  import opened Ranking
  import opened SlotPicker
  import opened SlotLaws
  import opened RadioGate

  // ---- leads that fit -------------------------------------------------------------------------

  lemma {:induction false} WithoutIsSorted(s: seq<Article>, a: Article)
    requires Sorted(LeadLe, s)
    ensures Sorted(LeadLe, Without(s, a))
  {
    if s != [] {
      WithoutIsSorted(s[1..], a);
      var rest := Without(s[1..], a);
      forall j | 0 <= j < |rest|
        ensures LeadLe(s[0], rest[j])
      {
        WithoutMembers(s[1..], a, rest[j]);
        var i :| 0 <= i < |s[1..]| && s[1..][i] == rest[j];
        assert s[i + 1] == rest[j];
      }
    }
  }

  /**
   * When the lead's own title does not fit, the new lead is the most credible article whose title does, the newest of
   * these on a tie.
   */
  lemma FittingLeadIsBest(s: Story, a: Article)
    requires s.lead in s.articles && s.lead.line == "" && a in s.articles && a.line != ""
    ensures FirstFitting(LeadOrder(s)).Some?
    ensures var lead := FirstFitting(LeadOrder(s)).value;
            && lead in s.articles && lead.line != "" && a.credibility <= lead.credibility
            && (a.credibility == lead.credibility ==> a.fetchedAt <= lead.fetchedAt)
  {
    FittingLead(s);
    hide FirstFitting;
    var rest := Without(SortBy(LeadLe, s.articles), s.lead);
    var order := LeadOrder(s);
    SortBySorted(LeadLe, s.articles);
    WithoutIsSorted(SortBy(LeadLe, s.articles), s.lead);
    WithoutMembers(SortBy(LeadLe, s.articles), s.lead, a);
    SortByMembers(LeadLe, s.articles, a);
    FirstOfSorted(s.lead, rest, a);
  }

  lemma FirstOfSorted(x: Article, rest: seq<Article>, a: Article)
    requires x.line == "" && Sorted(LeadLe, rest) && a in rest && a.line != ""
    ensures FirstFitting([x] + rest).Some? && LeadLe(FirstFitting([x] + rest).value, a)
  {
    var order := [x] + rest;
    var k :| 0 <= k < |rest| && rest[k] == a;
    assert order[k + 1] == a;
    var lead := FirstFitting(order).value;
    var i :| 0 <= i < |order| && order[i] == lead && lead.line != "" && forall j :: 0 <= j < i ==> order[j].line == "";
    hide FirstFitting;
    assert order[i] == rest[i - 1];
  }

  predicate SomeTitleFits(s: Story) {
    FirstFitting(LeadOrder(s)).Some?
  }

  /** The ranking goes on in its order without the stories no title of which fits; those are reported in theirs. */
  lemma {:induction false} FittedInOrder(stories: seq<Story>)
    ensures var kept := Filter(SomeTitleFits, stories);
            && |Fitted(stories)| == |kept|
            && forall k :: 0 <= k < |kept| ==>
                 && FirstFitting(LeadOrder(kept[k])) == Some(Fitted(stories)[k].lead)
                 && Fitted(stories)[k] == kept[k].(lead := Fitted(stories)[k].lead)
    ensures Unfit(stories) == Filter((s: Story) => !SomeTitleFits(s), stories)
  {
    hide FirstFitting, LeadOrder;
    if stories != [] {
      var n := |stories| - 1;
      FittedInOrder(stories[..n]);
      assert stories == stories[..n] + [stories[n]] && [stories[n]][1..] == [];
      FilterConcat(SomeTitleFits, stories[..n], [stories[n]]);
      FilterConcat((s: Story) => !SomeTitleFits(s), stories[..n], [stories[n]]);
    }
  }

  // ---- the verdicts ---------------------------------------------------------------------------

  /**
   * A story is dropped exactly when its verdict calls it opinion, soft, or no story. One that stays is as it was,
   * except that it is sensitive if any of its titles is tragic, the verdict says so, or there is none.
   */
  lemma MergeMeans(s: Story, verdicts: map<string, Verdict>, t: Story)
    ensures Merge(s, verdicts).None? <==>
              s.lead.id in verdicts
              && (verdicts[s.lead.id].opinion || verdicts[s.lead.id].soft || !verdicts[s.lead.id].story)
    ensures Merge(s, verdicts) == Some(t) ==>
              && t.articles == s.articles && t.lead == s.lead && t.outlets == s.outlets && t.score == s.score
              && t.last == s.last && t.sport == s.sport
              && (t.sensitive <==>
                    || (exists a :: a in s.articles && a.tragic)
                    || s.lead.id !in verdicts || verdicts[s.lead.id].sensitive)
  {
    assert Tragic(s) <==> exists a :: a in s.articles && a.tragic;
  }

  /** The ranking goes on in its order without the stories the verdicts drop. */
  lemma {:induction false} MergedInOrder(ranked: seq<Story>, verdicts: map<string, Verdict>)
    ensures var kept := Filter((s: Story) => Merge(s, verdicts).Some?, ranked);
            && |Merged(ranked, verdicts)| == |kept|
            && forall k :: 0 <= k < |kept| ==> Some(Merged(ranked, verdicts)[k]) == Merge(kept[k], verdicts)
  {
    hide Merge;
    if ranked != [] {
      var n := |ranked| - 1;
      MergedInOrder(ranked[..n], verdicts);
      assert ranked == ranked[..n] + [ranked[n]] && [ranked[n]][1..] == [];
      FilterConcat((s: Story) => Merge(s, verdicts).Some?, ranked[..n], [ranked[n]]);
    }
  }

  // ---- the lines ------------------------------------------------------------------------------

  lemma {:induction false} OwnLineIs(top: seq<Story>, id: string, l: Line)
    ensures OwnLine(top, id) == Some(l) <==>
              exists k :: 0 <= k < |top| && top[k].lead.id == id && top[k].lead.line == l
                          && forall j :: k < j < |top| ==> top[j].lead.id != id
    ensures OwnLine(top, id).Some? <==> exists k :: 0 <= k < |top| && top[k].lead.id == id
  {
    if top != [] {
      var n := |top| - 1;
      OwnLineIs(top[..n], id, l);
      forall k | 0 <= k < n
        ensures top[..n][k] == top[k]
      {
      }
    }
  }

  lemma LineComesFrom(top: seq<Story>, items: seq<RawItem>, lines: map<string, Line>, id: string)
    requires LinesRight(top, items, lines)
    ensures id in lines <==> exists k :: 0 <= k < |top| && top[k].lead.id == id
    ensures id in lines ==>
              || (exists k :: 0 <= k < |items| && items[k].id == id && items[k].h == lines[id] && |lines[id]| >= 12)
              || (exists k :: 0 <= k < |top| && top[k].lead.id == id && top[k].lead.line == lines[id])
  {
    OwnLineIs(top, id, "");
    if id in lines {
      OwnLineIs(top, id, lines[id]);
      LastLineIs(items, id, lines[id]);
    }
    hide OwnLine, LastLine;
  }

  /** The wording call is about the first thirty stories, and gives each of them a line and nothing else one. */
  lemma WordedMeans(
    stories: seq<Story>, wording: Wording, lines: map<string, Line>, verdicts: map<string, Verdict>,
    merged: seq<Story>, id: string)
    requires Worded(stories, wording, lines, verdicts, merged)
    ensures var fit := Fitted(stories);
            var top := if |fit| <= 30 then fit else fit[..30];
            && (id in lines <==> exists k :: 0 <= k < |top| && top[k].lead.id == id)
            && (id in verdicts ==> id in lines && wording.Items?)
            && (id in lines ==>
                  || (&& wording.Items?
                      && exists k :: && 0 <= k < |wording.items| && wording.items[k].id == id
                                     && wording.items[k].h == lines[id] && |lines[id]| >= 12)
                  || (exists k :: 0 <= k < |top| && top[k].lead.id == id && top[k].lead.line == lines[id]))
  {
    hide Fitted, Merged, LinesRight, VerdictsRight;
    LineComesFrom(Top(Fitted(stories)), ItemsOf(wording), lines, id);
    VerdictHasItem(lines, ItemsOf(wording), verdicts, id);
  }

  lemma VerdictHasItem(lines: map<string, Line>, items: seq<RawItem>, verdicts: map<string, Verdict>, id: string)
    requires VerdictsRight(lines, items, verdicts)
    ensures id in verdicts ==> id in lines && items != []
  {
    if id in verdicts {
      LastVerdictIs(items, id, verdicts[id]);
    }
  }

  // ---- the judge ------------------------------------------------------------------------------

  /** What is missing from the ranking was refused; what is there was in it before. */
  lemma ThinnedMeans(all: seq<Story>, kept: seq<Story>, judged: Judged, s: Story)
    requires Thinned(all, kept, judged)
    ensures s in kept ==> s in all
    ensures s in all && s !in kept ==> s.lead.id in judged && !judged[s.lead.id]
  {
    ThinnedMembers(all, kept, judged);
  }

  lemma {:induction false} UnblockedIs(ranked: seq<Story>, judged: Judged, list: seq<nat>)
    requires forall k :: 0 <= k < |list| ==> list[k] < |ranked|
    ensures Unblocked(ranked, judged, list) == Filter((i: nat) => MayStay(ranked, judged, i), list)
  {
    if list != [] {
      UnblockedIs(ranked, judged, list[1..]);
    }
  }

  /** Kept on record, or never in need of the judge. */
  predicate MayStay(ranked: seq<Story>, judged: Judged, i: nat) {
    i < |ranked| && if ranked[i].lead.id in judged then judged[ranked[i].lead.id] else !ranked[i].lead.pakistan
  }

  /** The last cut takes off exactly what is refused, or touches Pakistan and was never judged. */
  lemma CutMeans(ranked: seq<Story>, judged: Judged, full: Slots, s: Slots)
    requires IsCut(ranked, judged, full, s)
    ensures s.headline ==
              if full.headline.Some? && MayStay(ranked, judged, full.headline.value) then full.headline else None
    ensures s.also == Filter((i: nat) => MayStay(ranked, judged, i), full.also)
    ensures s.music == Filter((i: nat) => MayStay(ranked, judged, i), full.music)
  {
    UnblockedIs(ranked, judged, full.also);
    UnblockedIs(ranked, judged, full.music);
  }

  /** What is picked before the cut is the hour by preference: headline, five stories, and up to six over music. */
  lemma AiredByPreference(ranked: seq<Story>, entity: bool, judged: Judged, full: Slots, s: Slots)
    requires Aired(ranked, entity, judged, full, s)
    ensures GreedyHour(ranked, entity, 5, 4, 6, full)
  {
    PickedByPreference(ranked, entity, 5, 4, 6, full);
  }
}
