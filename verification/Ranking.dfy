/** The diversity ranking of src/systemsense/evidence/ranking.py; scores are exact rationals. */
module Ranking {
  import opened Results
  import opened Sequences
  import opened Ordering

  datatype Rankable = Rankable(evidenceId: string, category: string, relevance: real, severity: real,
                               proximity: real, novelty: real, coverage: real,
                               isChange: bool, isContradiction: bool)

  datatype Ranked = Ranked(evidence: Rankable, score: real)

  function Score(e: Rankable): real {
    0.30 * e.relevance + 0.15 * e.severity + 0.15 * e.proximity + 0.10 * e.novelty + 0.10 * e.coverage
    + (if e.isChange then 0.10 else 0.0) + (if e.isContradiction then 0.10 else 0.0)
  }

  function Rank(e: Rankable): Ranked { Ranked(e, Score(e)) }

  predicate Better(a: Ranked, b: Ranked) {
    a.score > b.score || (a.score == b.score && LexLeq(a.evidence.evidenceId, b.evidence.evidenceId))
  }

  function Scored(candidates: seq<Rankable>): seq<Ranked> { Sort(Better, Map(Rank, candidates)) }

  function InCategory(category: string): Ranked -> bool { (x: Ranked) => x.evidence.category == category }

  /** One category in score order. */
  function Group(scored: seq<Ranked>, category: string): seq<Ranked> { Filter(InCategory(category), scored) }

  /** The categories in order of first appearance. */
  function Categories(scored: seq<Ranked>): seq<string> {
    if |scored| == 0 then [] else
      var n := |scored| - 1;
      var before := Categories(scored[..n]);
      if scored[n].evidence.category in before then before else before + [scored[n].evidence.category]
  }

  function Groups(scored: seq<Ranked>): seq<seq<Ranked>> {
    var categories := Categories(scored);
    seq(|categories|, i requires 0 <= i < |categories| => Group(scored, categories[i]))
  }

  /** The items that the categories still have for round `r`. */
  function RoundItems(groups: seq<seq<Ranked>>, r: nat): seq<Ranked> {
    if |groups| == 0 then [] else (if |groups[0]| > r then [groups[0][r]] else []) + RoundItems(groups[1..], r)
  }

  function Round(groups: seq<seq<Ranked>>, r: nat): seq<Ranked> {
    Sort(Better, RoundItems(groups, r))
  }

  /** The first `k` rounds, one after the other. */
  function Rounds(groups: seq<seq<Ranked>>, k: nat): seq<Ranked> {
    if k == 0 then [] else Rounds(groups, k - 1) + Round(groups, k - 1)
  }

  /** What `rank_evidence` returns. */
  function Ranking(candidates: seq<Rankable>, limit: nat, maxPerCategory: nat): seq<Ranked> {
    Take(Rounds(Groups(Scored(candidates)), maxPerCategory), limit)
  }

  /** The `by_category` dictionary after a prefix of the scored items. */
  ghost predicate Grouped(order: seq<string>, byCategory: map<string, seq<Ranked>>, prefix: seq<Ranked>) {
    && order == Categories(prefix)
    && (forall c :: c in byCategory <==> c in order)
    && (forall c :: Group(prefix, c) == if c in byCategory then byCategory[c] else [])
  }

  /** The values of the source's `by_category` dictionary in insertion order. */
  method GroupByCategory(scored: seq<Ranked>) returns (groups: seq<seq<Ranked>>)
    ensures groups == Groups(scored)
  {
    hide Grouped, Groups;
    var order: seq<string>, byCategory: map<string, seq<Ranked>> := [], map[];
    GroupedStart();
    for i := 0 to |scored|
      invariant Grouped(order, byCategory, scored[..i])
    {
      var item := scored[i];
      var category := item.evidence.category;
      assert scored[..i + 1] == scored[..i] + [item];
      GroupedNext(order, byCategory, scored[..i], item);
      var items := [];
      if category !in byCategory {
        order := order + [category];
      } else {
        items := byCategory[category];
      }
      byCategory := byCategory[category := items + [item]];
    }
    assert scored[..|scored|] == scored;
    GroupedDone(order, byCategory, scored);
    groups := seq(|order|, i requires 0 <= i < |order| && order[i] in byCategory => byCategory[order[i]]);
  }

  lemma GroupedStart()
    ensures Grouped([], map[], [])
  {
  }

  lemma GroupedDone(order: seq<string>, byCategory: map<string, seq<Ranked>>, scored: seq<Ranked>)
    requires Grouped(order, byCategory, scored)
    ensures |Groups(scored)| == |order|
    ensures forall i :: 0 <= i < |order| ==> order[i] in byCategory && Groups(scored)[i] == byCategory[order[i]]
  {
    hide Group;
  }

  lemma GroupNext(prefix: seq<Ranked>, item: Ranked)
    ensures var own := item.evidence.category;
      && (forall c :: Group(prefix + [item], c) == if c == own then Group(prefix, c) + [item] else Group(prefix, c))
      && Categories(prefix + [item]) == if own in Categories(prefix) then Categories(prefix) else Categories(prefix) + [own]
  {
    assert (prefix + [item])[..|prefix|] == prefix;
    forall c ensures Group(prefix + [item], c)
                  == if c == item.evidence.category then Group(prefix, c) + [item] else Group(prefix, c)
    {
      FilterConcat(InCategory(c), prefix, [item]);
    }
  }

  lemma {:induction false} GroupedNext(order: seq<string>, byCategory: map<string, seq<Ranked>>, prefix: seq<Ranked>, item: Ranked)
    requires Grouped(order, byCategory, prefix)
    ensures var own := item.evidence.category;
      if own in byCategory then Grouped(order, byCategory[own := byCategory[own] + [item]], prefix + [item])
      else Grouped(order + [own], byCategory[own := [] + [item]], prefix + [item])
  {
    hide Group;
    GroupNext(prefix, item);
  }

  datatype RankingError = LimitTooSmall | CapTooSmall

  method RankEvidence(candidates: seq<Rankable>, limit: int, maxPerCategory: int) returns (r: Result<seq<Ranked>, RankingError>)
    ensures r == Err(LimitTooSmall) <==> limit < 1
    ensures r == Err(CapTooSmall) <==> limit >= 1 && maxPerCategory < 1
    ensures limit >= 1 && maxPerCategory >= 1 ==> r == Ok(Ranking(candidates, limit, maxPerCategory))
  {
    if limit < 1 {
      return Err(LimitTooSmall);
    }
    if maxPerCategory < 1 {
      return Err(CapTooSmall);
    }
    var selected := SelectRounds(candidates, limit, maxPerCategory);
    return Ok(selected);
  }

  /** The rounds: each takes the next item of every category that still has one. */
  method SelectRounds(candidates: seq<Rankable>, limit: nat, maxPerCategory: nat) returns (selected: seq<Ranked>)
    requires 1 <= limit && 1 <= maxPerCategory
    ensures selected == Ranking(candidates, limit, maxPerCategory)
  {
    hide Groups, Scored, Round;
    var groups := GroupByCategory(Scored(candidates));
    selected := [];
    for round := 0 to maxPerCategory
      invariant selected == Rounds(groups, round) && |selected| < limit
    {
      var roundCandidates := Round(groups, round);
      RoundsGrow(groups, round + 1, maxPerCategory);
      for j := 0 to |roundCandidates|
        invariant selected == Rounds(groups, round) + roundCandidates[..j] && |selected| < limit
      {
        selected := selected + [roundCandidates[j]];
        assert selected == Rounds(groups, round) + roundCandidates[..j + 1];
        if |selected| == limit {
          assert selected <= Rounds(groups, round + 1);
          return;
        }
      }
    }
  }

  // ---- Rounds ----

  lemma {:induction false} RoundsGrow(groups: seq<seq<Ranked>>, r: nat, k: nat)
    requires r <= k
    ensures Rounds(groups, r) <= Rounds(groups, k)
  {
    hide Round;
    if r < k {
      RoundsGrow(groups, r, k - 1);
    }
  }

  /** The number of items the first `k` rounds can show. */
  function Available(groups: seq<seq<Ranked>>, k: nat): nat {
    if |groups| == 0 then 0 else Min(|groups[0]|, k) + Available(groups[1..], k)
  }

  lemma RoundSize(groups: seq<seq<Ranked>>, r: nat)
    ensures |Round(groups, r)| + Available(groups, r) == Available(groups, r + 1)
  {
    RoundItemsSize(groups, r);
  }

  lemma {:induction false} RoundItemsSize(groups: seq<seq<Ranked>>, r: nat)
    ensures |RoundItems(groups, r)| + Available(groups, r) == Available(groups, r + 1)
  {
    if groups != [] {
      RoundItemsSize(groups[1..], r);
    }
  }

  lemma {:induction false} RoundsSize(groups: seq<seq<Ranked>>, k: nat)
    ensures |Rounds(groups, k)| == Available(groups, k)
  {
    hide Round;
    if k == 0 {
      NothingAvailable(groups);
    } else {
      RoundsSize(groups, k - 1);
      RoundSize(groups, k - 1);
    }
  }

  lemma {:induction false} NothingAvailable(groups: seq<seq<Ranked>>)
    ensures Available(groups, 0) == 0
  {
    if groups != [] {
      NothingAvailable(groups[1..]);
    }
  }

  /** Main result: how many items come back. */
  lemma RankingLength(candidates: seq<Rankable>, limit: nat, cap: nat)
    ensures |Ranking(candidates, limit, cap)| == Min(limit, Available(Groups(Scored(candidates)), cap))
  {
    RoundsSize(Groups(Scored(candidates)), cap);
  }

  // ---- One category ----

  lemma {:induction false} CategoriesAreExact(scored: seq<Ranked>)
    ensures Distinct(Categories(scored))
    ensures forall c :: c in Categories(scored) <==> Group(scored, c) != []
  {
    if scored != [] {
      var n := |scored| - 1;
      CategoriesAreExact(scored[..n]);
      assert scored == scored[..n] + [scored[n]];
      forall c ensures Group(scored, c) == Group(scored[..n], c) + if c == scored[n].evidence.category then [scored[n]] else [] {
        FilterConcat(InCategory(c), scored[..n], [scored[n]]);
      }
    }
  }

  /** The groups are those of distinct categories. */
  ghost predicate Separated(groups: seq<seq<Ranked>>, categories: seq<string>) {
    && |groups| == |categories| && Distinct(categories)
    && forall i, x :: 0 <= i < |groups| && x in groups[i] ==> x.evidence.category == categories[i]
  }

  lemma {:induction false} RoundItemsOfCategory(groups: seq<seq<Ranked>>, categories: seq<string>, r: nat, i: nat)
    requires Separated(groups, categories) && i < |groups|
    ensures Filter(InCategory(categories[i]), RoundItems(groups, r)) == if |groups[i]| > r then [groups[i][r]] else []
  {
    var keep := InCategory(categories[i]);
    var head, rest := if |groups[0]| > r then [groups[0][r]] else [], RoundItems(groups[1..], r);
    SeparatedTail(groups, categories);
    FilterConcat(keep, head, rest);
    FilterHead(groups[0], r, categories[0], categories[i]);
    hide Separated;
    if i == 0 {
      OtherCategories(groups[1..], categories[1..], r, categories[0]);
      FilterNone(keep, rest);
    } else {
      RoundItemsOfCategory(groups[1..], categories[1..], r, i - 1);
      assert categories[1..][i - 1] == categories[i] && groups[1..][i - 1] == groups[i];
    }
  }

  lemma FilterHead(g: seq<Ranked>, r: nat, own: string, c: string)
    requires forall x :: x in g ==> x.evidence.category == own
    ensures var head := if |g| > r then [g[r]] else [];
      Filter(InCategory(c), head) == if c == own then head else []
  {
  }

  lemma SeparatedTail(groups: seq<seq<Ranked>>, categories: seq<string>)
    requires Separated(groups, categories) && groups != []
    ensures Separated(groups[1..], categories[1..]) && categories[0] !in categories[1..]
    ensures forall i :: 0 < i < |categories| ==> categories[i] != categories[0]
    ensures forall x :: x in groups[0] ==> x.evidence.category == categories[0]
  {
  }

  lemma {:induction false} OtherCategories(groups: seq<seq<Ranked>>, categories: seq<string>, r: nat, c: string)
    requires Separated(groups, categories) && c !in categories
    ensures forall x :: x in RoundItems(groups, r) ==> x.evidence.category != c
  {
    if groups != [] {
      SeparatedTail(groups, categories);
      hide Separated;
      OtherCategories(groups[1..], categories[1..], r, c);
      assert |groups[0]| > r ==> groups[0][r] in groups[0];
    }
  }

  lemma RoundOfCategory(groups: seq<seq<Ranked>>, categories: seq<string>, r: nat, i: nat)
    requires Separated(groups, categories) && i < |groups|
    ensures Filter(InCategory(categories[i]), Round(groups, r)) == if |groups[i]| > r then [groups[i][r]] else []
  {
    var keep := InCategory(categories[i]);
    RoundMembers(groups, r);
    hide Round;
    FilterRearranged(keep, Round(groups, r), RoundItems(groups, r));
    RoundItemsOfCategory(groups, categories, r, i);
    SmallSequences(Filter(keep, Round(groups, r)), Filter(keep, RoundItems(groups, r)));
  }

  lemma SmallSequences(a: seq<Ranked>, b: seq<Ranked>)
    requires multiset(a) == multiset(b) && |b| <= 1
    ensures a == b
  {
    SameMembers(a, b);
    if |b| == 1 {
      assert b[0] in a;
    }
  }

  lemma OneMoreTaken(keep: Ranked -> bool, before: seq<Ranked>, round: seq<Ranked>, g: seq<Ranked>, k: nat)
    requires k > 0 && Filter(keep, before) == Take(g, k - 1)
    requires Filter(keep, round) == if |g| > k - 1 then [g[k - 1]] else []
    ensures Filter(keep, before + round) == Take(g, k)
  {
    hide Take;
    FilterConcat(keep, before, round);
    TakeOneMore(g, k);
  }

  lemma TakeOneMore(g: seq<Ranked>, k: nat)
    requires k > 0
    ensures Take(g, k) == Take(g, k - 1) + if |g| > k - 1 then [g[k - 1]] else []
  {
  }

  /** After `k` rounds a category has shown its best `k` items, in score order. */
  lemma {:induction false} RoundsOfCategory(groups: seq<seq<Ranked>>, categories: seq<string>, k: nat, i: nat)
    requires Separated(groups, categories) && i < |groups|
    ensures Shown(groups, categories, k, i)
  {
    hide Round;
    if k > 0 {
      RoundsOfCategory(groups, categories, k - 1, i);
      RoundOfCategory(groups, categories, k - 1, i);
      OneMoreTaken(InCategory(categories[i]), Rounds(groups, k - 1), Round(groups, k - 1), groups[i], k);
    }
  }

  ghost predicate Shown(groups: seq<seq<Ranked>>, categories: seq<string>, k: nat, i: nat)
    requires i < |groups| == |categories|
  {
    Filter(InCategory(categories[i]), Rounds(groups, k)) == Take(groups[i], k)
  }

  lemma GroupsAreSeparated(scored: seq<Ranked>)
    ensures Separated(Groups(scored), Categories(scored))
  {
    CategoriesAreExact(scored);
  }

  lemma FilterOfPrefix(keep: Ranked -> bool, a: seq<Ranked>, b: seq<Ranked>)
    requires a <= b
    ensures Filter(keep, a) <= Filter(keep, b)
  {
    assert b == a + b[|a|..];
    FilterConcat(keep, a, b[|a|..]);
  }

  /** Main result: within any category the ranking shows a prefix of the category's score order. */
  lemma CategoryPrefix(candidates: seq<Rankable>, limit: nat, cap: nat, c: string)
    ensures Filter(InCategory(c), Ranking(candidates, limit, cap)) <= Take(Group(Scored(candidates), c), cap)
  {
    var scored := Scored(candidates);
    var all := Rounds(Groups(scored), cap);
    CategoriesAreExact(scored);
    GroupsAreSeparated(scored);
    FilterOfPrefix(InCategory(c), Ranking(candidates, limit, cap), all);
    if c in Categories(scored) {
      var i :| 0 <= i < |Categories(scored)| && Categories(scored)[i] == c;
      RoundsOfCategory(Groups(scored), Categories(scored), cap, i);
    } else {
      RoundsStayInCategories(Groups(scored), Categories(scored), cap, c);
      FilterNone(InCategory(c), all);
    }
  }

  lemma {:induction false} RoundsStayInCategories(groups: seq<seq<Ranked>>, categories: seq<string>, k: nat, c: string)
    requires Separated(groups, categories) && c !in categories
    ensures forall x :: x in Rounds(groups, k) ==> x.evidence.category != c
  {
    hide Separated, TotalPreorder, Round;
    if k > 0 {
      RoundsStayInCategories(groups, categories, k - 1, c);
      OtherCategories(groups, categories, k - 1, c);
      RoundMembers(groups, k - 1);
    }
  }

  lemma {:induction false} RoundMembers(groups: seq<seq<Ranked>>, r: nat)
    ensures multiset(Round(groups, r)) == multiset(RoundItems(groups, r))
    ensures forall x :: x in Round(groups, r) <==> x in RoundItems(groups, r)
  {
    BetterIsTotal();
    SortSorts(Better, RoundItems(groups, r));
  }

  // ---- Fairness ----

  lemma {:induction false} FindRound(groups: seq<seq<Ranked>>, k: nat, p: nat) returns (r: nat)
    requires p < |Rounds(groups, k)|
    ensures r < k && |Rounds(groups, r)| <= p < |Rounds(groups, r + 1)|
    ensures Rounds(groups, r + 1) <= Rounds(groups, k)
  {
    hide Round;
    if p >= |Rounds(groups, k - 1)| {
      r := k - 1;
    } else {
      r := FindRound(groups, k - 1, p);
    }
  }

  /**
   Main result: when position `p` shows the (k+1)-th item of some category, every category has
   already shown k items, or all it has.
   */
  lemma Fairness(candidates: seq<Rankable>, limit: nat, cap: nat, p: nat, c: string)
    requires p < |Ranking(candidates, limit, cap)|
    ensures var shown := Ranking(candidates, limit, cap);
      var k := |Filter(InCategory(shown[p].evidence.category), shown[..p])|;
      |Filter(InCategory(c), shown[..p])| >= Min(k, |Group(Scored(candidates), c)|)
  {
    var scored := Scored(candidates);
    var groups, categories := Groups(scored), Categories(scored);
    var all := Rounds(groups, cap);
    var shown := Ranking(candidates, limit, cap);
    assert shown[..p] == all[..p] && shown[p] == all[p];
    GroupsAreSeparated(scored);
    CategoriesAreExact(scored);
    hide *;
    var r := RoundOf(groups, cap, p);
    OwnCategorySoFar(groups, categories, all, p, r);
    if c in categories {
      var i :| 0 <= i < |categories| && categories[i] == c;
      assert groups[i] == Group(scored, c);
      OtherCategorySoFar(groups, categories, all, p, r, i);
    }
  }

  lemma {:induction false} RoundOf(groups: seq<seq<Ranked>>, k: nat, p: nat) returns (r: nat)
    requires p < |Rounds(groups, k)|
    ensures var all := Rounds(groups, k);
      Rounds(groups, r) <= all[..p] && all[..p] + [all[p]] <= Rounds(groups, r + 1)
  {

    hide Round;
    r := FindRound(groups, k, p);
    RoundsGrow(groups, r, k);
    var all, upTo := Rounds(groups, k), Rounds(groups, r + 1);
    assert all[..p] + [all[p]] == all[..p + 1] == upTo[..p + 1];
  }

  /** At most r items of the own category came before a position in round r. */
  lemma OwnCategorySoFar(groups: seq<seq<Ranked>>, categories: seq<string>, all: seq<Ranked>, p: nat, r: nat)
    requires Separated(groups, categories) && p < |all|
    requires all[..p] + [all[p]] <= Rounds(groups, r + 1)
    ensures |Filter(InCategory(all[p].evidence.category), all[..p])| <= r
  {
    var keep := InCategory(all[p].evidence.category);
    FilterOfPrefix(keep, all[..p] + [all[p]], Rounds(groups, r + 1));
    FilterConcat(keep, all[..p], [all[p]]);
    ShownSoFar(groups, categories, r + 1, all[p].evidence.category);
  }

  /** Every category had shown r items, or all it has. */
  lemma OtherCategorySoFar(groups: seq<seq<Ranked>>, categories: seq<string>, all: seq<Ranked>, p: nat, r: nat, i: nat)
    requires Separated(groups, categories) && p < |all| && i < |groups|
    requires Rounds(groups, r) <= all[..p]
    ensures |Filter(InCategory(categories[i]), all[..p])| >= Min(r, |groups[i]|)
  {
    RoundsOfCategory(groups, categories, r, i);
    FilterOfPrefix(InCategory(categories[i]), Rounds(groups, r), all[..p]);
  }

  lemma ShownSoFar(groups: seq<seq<Ranked>>, categories: seq<string>, k: nat, c: string)
    requires Separated(groups, categories)
    ensures |Filter(InCategory(c), Rounds(groups, k))| <= k
  {
    if c in categories {
      var i :| 0 <= i < |categories| && categories[i] == c;
      RoundsOfCategory(groups, categories, k, i);
    } else {
      RoundsStayInCategories(groups, categories, k, c);
      FilterNone(InCategory(c), Rounds(groups, k));
    }
  }

  // ---- Scores ----

  /** No later in score order. */
  ghost predicate NoWorse(a: Ranked, b: Ranked) {
    a.score > b.score || (a.score == b.score && LexLeq(a.evidence.evidenceId, b.evidence.evidenceId))
  }

  ghost predicate IsFraction(x: real) { 0.0 <= x <= 1.0 }

  ghost predicate Normal(e: Rankable) {
    IsFraction(e.relevance) && IsFraction(e.severity) && IsFraction(e.proximity) && IsFraction(e.novelty) && IsFraction(e.coverage)
  }

  /** `a` is nowhere less than `b`. */
  ghost predicate AtLeast(a: Rankable, b: Rankable) {
    && a.relevance >= b.relevance && a.severity >= b.severity && a.proximity >= b.proximity && a.novelty >= b.novelty
    && a.coverage >= b.coverage && (b.isChange ==> a.isChange) && (b.isContradiction ==> a.isContradiction)
  }

  /** What a score is: between 0 and 1, and each component adds its share, 30, 15, 15, 10, 10, 10 and 10 percent. */
  lemma ScoreIsAWeighing(e: Rankable, other: Rankable)
    ensures Normal(e) ==> IsFraction(Score(e))
    ensures AtLeast(e, other) ==> Score(e) >= Score(other)
    ensures forall x :: 100.0 * (Score(e.(relevance := x)) - Score(e)) == 30.0 * (x - e.relevance)
    ensures forall x :: 100.0 * (Score(e.(severity := x)) - Score(e)) == 15.0 * (x - e.severity)
    ensures forall x :: 100.0 * (Score(e.(proximity := x)) - Score(e)) == 15.0 * (x - e.proximity)
    ensures forall x :: 100.0 * (Score(e.(novelty := x)) - Score(e)) == 10.0 * (x - e.novelty)
    ensures forall x :: 100.0 * (Score(e.(coverage := x)) - Score(e)) == 10.0 * (x - e.coverage)
    ensures 100.0 * (Score(e.(isChange := true)) - Score(e.(isChange := false))) == 10.0
    ensures 100.0 * (Score(e.(isContradiction := true)) - Score(e.(isContradiction := false))) == 10.0
    ensures Score(Rankable(e.evidenceId, e.category, 0.0, 0.0, 0.0, 0.0, 0.0, false, false)) == 0.0
  {
  }

  lemma {:induction false} GroupIsSorted(candidates: seq<Rankable>, c: string)
    ensures forall i, j :: 0 <= i < j < |Group(Scored(candidates), c)| ==>
      NoWorse(Group(Scored(candidates), c)[i], Group(Scored(candidates), c)[j])
  {
    BetterIsTotal();
    SortSorts(Better, Map(Rank, candidates));
    FilterKeepsSorted(Better, InCategory(c), Scored(candidates));
  }

  /** Where an element is after filtering. */
  lemma FilterAt(keep: Ranked -> bool, xs: seq<Ranked>, i: nat)
    requires i < |xs| && keep(xs[i])
    ensures |Filter(keep, xs[..i])| < |Filter(keep, xs)| && Filter(keep, xs)[|Filter(keep, xs[..i])|] == xs[i]
  {
    assert xs == xs[..i] + [xs[i]] + xs[i + 1..];
    FilterConcat(keep, xs[..i], [xs[i]]);
    FilterConcat(keep, xs[..i] + [xs[i]], xs[i + 1..]);
  }

  lemma FilteredPositions(keep: Ranked -> bool, xs: seq<Ranked>, i: nat, j: nat) returns (k: nat, m: nat)
    requires i < j < |xs| && keep(xs[i]) && keep(xs[j])
    ensures k < m < |Filter(keep, xs)| && Filter(keep, xs)[k] == xs[i] && Filter(keep, xs)[m] == xs[j]
  {
    FilterAt(keep, xs, i);
    FilterAt(keep, xs, j);
    FilterAt(keep, xs[..j], i);
    assert xs[..j][..i] == xs[..i];
    k, m := |Filter(keep, xs[..i])|, |Filter(keep, xs[..j])|;
  }

  /** Main result: within a category, higher scores come first. */
  lemma ScoresNeverIncrease(candidates: seq<Rankable>, limit: nat, cap: nat, i: nat, j: nat)
    requires i < j < |Ranking(candidates, limit, cap)|
    requires Ranking(candidates, limit, cap)[i].evidence.category == Ranking(candidates, limit, cap)[j].evidence.category
    ensures NoWorse(Ranking(candidates, limit, cap)[i], Ranking(candidates, limit, cap)[j])
  {
    hide Ranking, Scored, Group, NoWorse;
    var shown := Ranking(candidates, limit, cap);
    var c := shown[i].evidence.category;
    CategoryPrefix(candidates, limit, cap, c);
    GroupIsSorted(candidates, c);
    var k, m := FilteredPositions(InCategory(c), shown, i, j);
    var group := Group(Scored(candidates), c);
    assert group[k] == shown[i] && group[m] == shown[j];
  }

  /** Main result: what is shown are candidates with their scores, and one that is left out of a category beats none shown there. */
  lemma LeftOutNeverBeatsShown(candidates: seq<Rankable>, limit: nat, cap: nat, e: Rankable, x: Ranked)
    requires x in Ranking(candidates, limit, cap)
    ensures x.evidence in candidates && x.score == Score(x.evidence)
    ensures e in candidates && Rank(e) !in Ranking(candidates, limit, cap) && e.category == x.evidence.category ==> NoWorse(x, Rank(e))
  {
    var shown, c := Ranking(candidates, limit, cap), x.evidence.category;
    var group := Group(Scored(candidates), c);
    CategoryPrefix(candidates, limit, cap, c);
    GroupIsSorted(candidates, c);
    ScoredMembers(candidates);
    hide Ranking, Scored, NoWorse;
    var own := Filter(InCategory(c), shown);
    assert x in own;
    var k :| 0 <= k < |own| && own[k] == x;
    assert group[k] == x && x in Scored(candidates);
    if e in candidates && Rank(e) !in shown && e.category == c {
      assert Rank(e) in group;
      var m :| 0 <= m < |group| && group[m] == Rank(e);
      BehindPrefix(own, group, m);
    }
  }

  lemma BehindPrefix(own: seq<Ranked>, group: seq<Ranked>, m: nat)
    requires own <= group && m < |group| && group[m] !in own
    ensures m >= |own|
  {
    forall k | 0 <= k < |own| ensures own[k] != group[m] {
      assert own[k] in own;
    }
  }

  lemma ScoredMembers(candidates: seq<Rankable>)
    ensures forall x :: x in Scored(candidates) <==> exists e :: e in candidates && x == Rank(e)
  {
    BetterIsTotal();
    SortSorts(Better, Map(Rank, candidates));
    forall x ensures x in Map(Rank, candidates) <==> exists e :: e in candidates && x == Rank(e) {
      if e :| e in candidates && x == Rank(e) {
        KeyIn(Rank, candidates, e);
      }
      if x in Map(Rank, candidates) {
        var i :| 0 <= i < |candidates| && Map(Rank, candidates)[i] == x;
        assert candidates[i] in candidates && x == Rank(candidates[i]);
      }
    }
  }

  // ---- Limits and input order ----

  lemma LargerLimitExtends(candidates: seq<Rankable>, limit: nat, cap: nat)
    ensures Ranking(candidates, limit, cap) <= Ranking(candidates, limit + 1, cap)
  {
  }

  lemma {:induction false} BetterIsTotal()
    ensures TotalPreorder(Better)
  {
    LexIsTotalOrder();
  }

  ghost predicate UniqueIds(candidates: seq<Rankable>) {
    forall i, j :: 0 <= i < j < |candidates| ==> candidates[i].evidenceId != candidates[j].evidenceId
  }

  /** Main result: with unique identifiers the ranking does not depend on the input order. */
  lemma InputOrderIrrelevant(a: seq<Rankable>, b: seq<Rankable>, limit: nat, cap: nat)
    requires UniqueIds(a) && multiset(a) == multiset(b)
    ensures Ranking(a, limit, cap) == Ranking(b, limit, cap)
  {
    BetterIsTotal();
    LexIsTotalOrder();
    MapRearranged(a, b);
    forall x, y | x in Map(Rank, a) && y in Map(Rank, a) && Better(x, y) && Better(y, x) ensures x == y {
      var i :| 0 <= i < |a| && Map(Rank, a)[i] == x;
      var j :| 0 <= j < |a| && Map(Rank, a)[j] == y;
      assert a[i].evidenceId == a[j].evidenceId;
    }
    SortForgetsOrder(Better, Map(Rank, a), Map(Rank, b));
  }

  lemma {:induction false} MapRearranged(a: seq<Rankable>, b: seq<Rankable>)
    requires multiset(a) == multiset(b)
    ensures multiset(Map(Rank, a)) == multiset(Map(Rank, b))
  {
    SameMembers(a, b);
    if a != [] {
      assert a[0] in b;
      var i :| 0 <= i < |b| && b[i] == a[0];
      RemoveBoth(a, b, i);
      hide Map, Rank;
      MapRearranged(a[..0] + a[1..], b[..i] + b[i + 1..]);
    }
  }

  lemma RemoveBoth(a: seq<Rankable>, b: seq<Rankable>, i: nat)
    requires multiset(a) == multiset(b) && a != [] && i < |b| && b[i] == a[0]
    ensures var a', b' := a[..0] + a[1..], b[..i] + b[i + 1..];
      && multiset(a') == multiset(b')
      && multiset(Map(Rank, a)) == multiset(Map(Rank, a')) + multiset{Rank(a[0])}
      && multiset(Map(Rank, b)) == multiset(Map(Rank, b')) + multiset{Rank(a[0])}
  {
    hide Map, Rank;
    MapRemove(a, 0);
    MapRemove(b, i);
    RemoveSame(a, b, i);
  }

  lemma RemoveSame(a: seq<Rankable>, b: seq<Rankable>, i: nat)
    requires multiset(a) == multiset(b) && a != [] && i < |b| && b[i] == a[0]
    ensures multiset(a[..0] + a[1..]) == multiset(b[..i] + b[i + 1..])
  {
    RemoveAt(a, 0);
    RemoveAt(b, i);
  }

  lemma MapRemove(xs: seq<Rankable>, i: nat)
    requires i < |xs|
    ensures multiset(Map(Rank, xs)) == multiset(Map(Rank, xs[..i] + xs[i + 1..])) + multiset{Rank(xs[i])}
  {
    RemoveAt(Map(Rank, xs), i);
    assert Map(Rank, xs[..i] + xs[i + 1..]) == Map(Rank, xs)[..i] + Map(Rank, xs)[i + 1..];
  }
}
