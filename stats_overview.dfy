/** The four summary cards above the research paper list, computed from the full list. */
module StatsOverview {
  import opened Values
  import opened Collections

  const Published := Str("Published")
  const UnderReview := Str("Under Review")

  /** What `sum + (p.citations || 0)` adds for one paper: a number counts as itself,
      `true` as 1, and a falsy value as 0. */
  function CitationValue(v: Value): int
  {
    match v
    case Num(n) => n
    case Bool(b) => if b then 1 else 0
    case _ => 0
  }

  /** `papers.reduce((sum, p) => sum + (p.citations || 0), 0)`, folded from the left. */
  function TotalCitations(papers: seq<Record>): int
  {
    if papers == [] then 0
    else TotalCitations(papers[..|papers| - 1]) + CitationValue(Get(papers[|papers| - 1], "citations"))
  }

  /** The citation total of two lists put together is the sum of their totals. */
  lemma {:induction false} TotalCitationsConcat(a: seq<Record>, b: seq<Record>)
    ensures TotalCitations(a + b) == TotalCitations(a) + TotalCitations(b)
    decreases |b|
  {
    if b != [] {
      var front := b[..|b| - 1];
      TotalCitationsConcat(a, front);
      assert (a + b)[..|a + b| - 1] == a + front;
      assert (a + b)[|a + b| - 1] == b[|b| - 1];
      var last := CitationValue(Get(b[|b| - 1], "citations"));
      assert TotalCitations(b) == TotalCitations(front) + last;
      assert TotalCitations(a + b) == TotalCitations(a + front) + last;
    } else {
      assert a + b == a;
    }
  }

  /** Papers without a citation count add nothing to the total. */
  lemma {:induction false} UncitedPapersAddNothing(papers: seq<Record>)
    requires forall p :: p in papers ==> !Truthy(Get(p, "citations"))
    ensures TotalCitations(papers) == 0
  {
    if papers != [] {
      assert papers[|papers| - 1] in papers;
      UncitedPapersAddNothing(papers[..|papers| - 1]);
    }
  }

  /** A paper whose citation count is a natural number never lowers the total. */
  lemma {:induction false} TotalCitationsNonNegative(papers: seq<Record>)
    requires forall p :: p in papers ==> Get(p, "citations").Num? ==> Get(p, "citations").n >= 0
    ensures TotalCitations(papers) >= 0
  {
    if papers != [] {
      assert papers[|papers| - 1] in papers;
      TotalCitationsNonNegative(papers[..|papers| - 1]);
    }
  }

  datatype Stat = Stat(name: string, value: int)

  /** The cards in display order: Total Papers, Published, Under Review, Total Citations. */
  function Stats(papers: seq<Record>): (cards: seq<Stat>)
    ensures |cards| == 4
    ensures cards[0] == Stat("Total Papers", |papers|)
    ensures cards[1] == Stat("Published", CountEq(papers, "status", Published))
    ensures cards[2] == Stat("Under Review", CountEq(papers, "status", UnderReview))
    ensures cards[3] == Stat("Total Citations", TotalCitations(papers))
    ensures 0 <= cards[1].value && 0 <= cards[2].value
    ensures cards[1].value + cards[2].value <= cards[0].value
  {
    TwoCountsBounded(papers, "status", Published, UnderReview);
    [ Stat("Total Papers", |papers|),
      Stat("Published", CountEq(papers, "status", Published)),
      Stat("Under Review", CountEq(papers, "status", UnderReview)),
      Stat("Total Citations", TotalCitations(papers)) ]
  }
}
