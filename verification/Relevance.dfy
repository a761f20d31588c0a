/** How query-aware compression ranks pages: a page scores for every token it shares with the end of
    the prompt, and a token counts the more, the fewer candidate pages hold it. */
module Relevance {
  import opened PrefixView
  import opened Pages
  import opened Pool
  import opened Compression
  import opened Sequences

  // ---------- what a score is ----------

  function AtMost(n: nat, bound: nat): nat {
    if n <= bound then n else bound
  }

  /** The tokens of the logical page behind table entry `j`. */
  function PageTokens(r: Request, j: nat, bs: nat): set<Token>
    requires j < |r.logical| && bs > 0
  {
    var l := r.logical[j];
    StartMonotone(l, l + 1, bs);
    var page := r.tokens[AtMost(Start(l, bs), |r.tokens|)..AtMost(Start(l + 1, bs), |r.tokens|)];
    set t | t in page
  }

  /** The last tokens of the prompt, or all of it if it is shorter. */
  function QueryTokens(r: Request, count: nat): set<Token> {
    var prompt := r.tokens[..AtMost(r.promptTokens, |r.tokens|)];
    var query := prompt[|prompt| - AtMost(count, |prompt|)..];
    set t | t in query
  }

  /** The pages between the first `sink` and the last `recent`, with their tokens. */
  function Candidates(r: Request, sink: nat, recent: nat, bs: nat): (pages: map<nat, set<Token>>)
    requires bs > 0
    ensures recent <= |r.logical| ==> pages.Keys == Interval(sink, |r.logical| - recent)
  {
    var end := if recent <= |r.logical| then |r.logical| - recent else 0;
    IntervalIs(sink, end);
    map j | j in Interval(sink, end) :: PageTokens(r, j, bs)
  }

  function Holders(pages: map<nat, set<Token>>, t: Token): set<nat> {
    set j | j in pages && t in pages[j]
  }

  function Weight(pages: map<nat, set<Token>>, t: Token): (w: real)
    ensures w >= 0.0
  {
    if Holders(pages, t) == {} then 0.0 else 1.0 / |Holders(pages, t)| as real
  }

  lemma SomeMember(tokens: set<Token>)
    ensures tokens == {} || exists t :: t in tokens
  {
    if forall t :: t !in tokens {
      assert tokens <= {};
    }
  }

  ghost function Rarity(pages: map<nat, set<Token>>, tokens: set<Token>): (score: real)
    ensures score >= 0.0
  {
    if tokens == {} then 0.0 else
      SomeMember(tokens);
      var t :| t in tokens;
      Weight(pages, t) + Rarity(pages, tokens - {t})
  }

  ghost function Scores(pages: map<nat, set<Token>>, query: set<Token>): (scores: map<nat, real>)
    ensures scores.Keys == pages.Keys
  {
    map j | j in pages :: Rarity(pages, pages[j] * query)
  }

  // ---------- what scores mean ----------

  /** The order in which tokens are added up does not matter. */
  lemma {:induction false} RarityWithout(pages: map<nat, set<Token>>, tokens: set<Token>, t: Token)
    requires t in tokens
    ensures Rarity(pages, tokens) == Weight(pages, t) + Rarity(pages, tokens - {t})
    decreases tokens
  {
    var u :| u in tokens && Rarity(pages, tokens) == Weight(pages, u) + Rarity(pages, tokens - {u});
    if u != t {
      RarityWithout(pages, tokens - {u}, t);
      RarityWithout(pages, tokens - {t}, u);
      assert tokens - {u} - {t} == tokens - {t} - {u};
    }
  }

  /** A page that shares every token of the prompt's end that another page shares scores at least as
      high. */
  lemma {:induction false} MoreMatchesScoreHigher(pages: map<nat, set<Token>>, fewer: set<Token>, more: set<Token>)
    requires fewer <= more
    ensures Rarity(pages, fewer) <= Rarity(pages, more)
    decreases more
  {
    if fewer == {} {
    } else {
      SomeMember(fewer);
      var t :| t in fewer;
      RarityWithout(pages, fewer, t);
      RarityWithout(pages, more, t);
      MoreMatchesScoreHigher(pages, fewer - {t}, more - {t});
    }
  }

  /** Positions that contain with each position all later ones are the last ones. */
  lemma {:induction false} LastOnes(top: set<nat>, lo: nat, hi: nat)
    requires forall a | a in top :: lo <= a < hi
    requires forall a, b {:trigger a in top, b in top} | a in top && a < b < hi :: b in top
    ensures lo + |top| <= hi || top == {}
    ensures forall j: nat :: j in top <==> hi - |top| <= j < hi
    decreases hi
  {
    if top == {} {
    } else {
      var a :| a in top;
      assert hi - 1 in top;
      var rest := top - {hi - 1};
      assert forall j | j in rest :: j in top;
      LastOnes(rest, lo, hi - 1);
      assert top == rest + {hi - 1};
    }
  }

  /** Without any match every score is zero. */
  lemma NoMatchNoScore(pages: map<nat, set<Token>>, query: set<Token>)
    requires forall j | j in pages :: pages[j] !! query
    ensures forall j | j in pages :: Scores(pages, query)[j] == 0.0
  {
    forall j | j in pages
      ensures Scores(pages, query)[j] == 0.0
    {
      assert pages[j] * query == {};
    }
  }

  /** The budget is filled all the same, and with the most recent candidates: what is kept is what a
      sink and recent window of the same total size keeps. */
  lemma NoMatchKeepsRecent(pages: map<nat, set<Token>>, query: set<Token>, n: nat, sink: nat, recent: nat,
      top: set<nat>)
    requires sink + recent <= n && pages.Keys == Interval(sink, n - recent) && top <= pages.Keys
    requires forall j | j in pages :: pages[j] !! query
    requires forall a, b | a in top && b in pages && b !in top :: RanksBelow(b, a, Scores(pages, query))
    ensures sink + (recent + |top|) <= n
    ensures KeepSet(n, sink, recent, top) == KeepSet(n, sink, recent + |top|, {})
  {
    NoMatchNoScore(pages, query);
    IntervalIs(sink, n - recent);
    hide Interval, Scores;
    forall a, b | a in top && a < b < n - recent
      ensures b in top
    {
      assert b in pages && Scores(pages, query)[a] == Scores(pages, query)[b];
    }
    LastOnes(top, sink, n - recent);
    SameKept(n, sink, recent, top);
  }

  /** The chosen pages and the recent ones together are one window. */
  lemma SameKept(n: nat, sink: nat, recent: nat, top: set<nat>)
    requires sink + recent <= n && sink + (recent + |top|) <= n
    requires forall j: nat :: j in top <==> n - recent - |top| <= j < n - recent
    ensures KeepSet(n, sink, recent, top) == KeepSet(n, sink, recent + |top|, {})
  {
    hide Interval;
    IntervalIs(n - recent, n);
    IntervalIs(n - recent - |top|, n);
  }

  // ---------- how scores are computed ----------

  /** How many of the pages hold each token, `document_frequency`. */
  ghost predicate Counts(pages: map<nat, set<Token>>, frequency: map<Token, nat>) {
    forall t {:trigger Holders(pages, t)} ::
      (if t in frequency then frequency[t] else 0) == |Holders(pages, t)|
  }

  method CountPage(pages: map<nat, set<Token>>, frequency: map<Token, nat>, position: nat, tokens: set<Token>)
      returns (counted: map<Token, nat>)
    requires Counts(pages, frequency) && position !in pages
    ensures Counts(pages[position := tokens], counted)
  {
    counted := frequency;
    var todo := tokens;
    while todo != {}
      invariant todo <= tokens
      invariant forall t ::
        (if t in counted then counted[t] else 0)
        == (if t in frequency then frequency[t] else 0) + if t in tokens - todo then 1 else 0
    {
      SomeMember(todo);
      var t :| t in todo;
      counted := counted[t := (if t in counted then counted[t] else 0) + 1];
      todo := todo - {t};
    }
    forall t
      ensures |Holders(pages[position := tokens], t)| == |Holders(pages, t)| + if t in tokens then 1 else 0
    {
      OneMoreHolder(pages, position, tokens, t);
    }
    forall t
      ensures (if t in counted then counted[t] else 0) == |Holders(pages[position := tokens], t)|
    {
      assert (if t in frequency then frequency[t] else 0) == |Holders(pages, t)|;
    }
  }

  lemma OneMoreHolder(pages: map<nat, set<Token>>, position: nat, tokens: set<Token>, t: Token)
    requires position !in pages
    ensures |Holders(pages[position := tokens], t)| == |Holders(pages, t)| + if t in tokens then 1 else 0
  {
    assert Holders(pages[position := tokens], t)
      == Holders(pages, t) + if t in tokens then {position} else {};
  }

  /** The candidates' pages lie within the tokens; without a recent window, if the table's do. */
  lemma CandidatePages(r: Request, recent: nat, bs: nat)
    requires bs > 0 && r.TableOk(bs) && r.blockTable != [] && Start(|r.blockTable| - 1, bs) <= r.physical
    requires recent == 0 ==> r.Span() <= r.NumBlocks(bs)
    ensures |r.logical| == |r.blockTable| && forall j | 0 <= j < |r.logical| - recent :: r.logical[j] < r.NumBlocks(bs)
  {
    hide Distinct, Start, PagesFor;
    StartSum(|r.blockTable| - 1, r.Span() - |r.blockTable|, bs);
    forall j | 0 <= j < |r.logical| - recent
      ensures r.logical[j] < r.NumBlocks(bs)
    {
      if recent > 0 {
        StartMonotone(r.logical[j] + 1, r.Span() - 1, bs);
        StartOrder(r.logical[j], r.logical[j] + 1, bs);
        PagesForAtMost(|r.tokens|, r.logical[j], bs);
      }
    }
  }

  /** Every candidate's tokens, and how many candidates hold each token. */
  method CollectPages(s: Sequence, sink: nat, recent: nat, bs: nat)
      returns (pages: map<nat, set<Token>>, frequency: map<Token, nat>)
    requires bs > 0 && sink + recent <= |s.logicalIndices|
    requires forall j | sink <= j < |s.logicalIndices| - recent :: s.logicalIndices[j] < s.NumBlocks(bs)
    ensures pages == Candidates(s.State(), sink, recent, bs) && Counts(pages, frequency)
  {
    hide Counts, PageTokens, Interval, PagesFor, Start, Candidates;
    ghost var r := s.State();
    pages, frequency := map[], map[];
    NothingCounted();
    IntervalIs(sink, sink);
    for j := sink to |s.logicalIndices| - recent
      invariant pages.Keys == Interval(sink, j) && Counts(pages, frequency)
      invariant forall i | i in pages :: i < |r.logical| && pages[i] == PageTokens(r, i, bs)
    {
      IntervalIs(sink, j);
      IntervalIs(sink, j + 1);
      var block := s.Block(s.logicalIndices[j], bs);
      var tokens := set t | t in block;
      BlockIs(s, j, bs);
      frequency := CountPage(pages, frequency, j, tokens);
      pages := pages[j := tokens];
    }
    CandidatesAre(pages, r, sink, recent, bs);
  }

  lemma CandidatesAre(pages: map<nat, set<Token>>, r: Request, sink: nat, recent: nat, bs: nat)
    requires bs > 0 && recent <= |r.logical| && pages.Keys == Interval(sink, |r.logical| - recent)
    requires forall i | i in pages :: i < |r.logical| && pages[i] == PageTokens(r, i, bs)
    ensures pages == Candidates(r, sink, recent, bs)
  {
    hide PageTokens, Interval;
  }

  lemma NothingCounted()
    ensures Counts(map[], map[])
  {
  }

  lemma BlockIs(s: Sequence, j: nat, bs: nat)
    requires bs > 0 && j < |s.logicalIndices| && s.logicalIndices[j] < s.NumBlocks(bs)
    ensures var block := s.Block(s.logicalIndices[j], bs);
      (set t | t in block) == PageTokens(s.State(), j, bs)
  {
    var l := s.logicalIndices[j];
    PagesForBounds(|s.tokenIds|, bs);
    StartMonotone(l, s.NumBlocks(bs) - 1, bs);
    StartIs(l, bs);
    StartIs(l + 1, bs);
  }

  /** The sum over the tokens in common. */
  method ScorePage(pages: map<nat, set<Token>>, frequency: map<Token, nat>, position: nat, query: set<Token>)
      returns (score: real)
    requires Counts(pages, frequency) && position in pages
    ensures score == Rarity(pages, pages[position] * query)
  {
    score := 0.0;
    var todo := pages[position] * query;
    while todo != {}
      invariant todo <= pages[position]
      invariant score + Rarity(pages, todo) == Rarity(pages, pages[position] * query)
    {
      var t :| t in todo;
      RarityWithout(pages, todo, t);
      assert position in Holders(pages, t);
      score := score + 1.0 / frequency[t] as real;
      todo := todo - {t};
    }
  }

  method ScorePages(pages: map<nat, set<Token>>, frequency: map<Token, nat>, query: set<Token>)
      returns (scores: map<nat, real>)
    requires Counts(pages, frequency)
    ensures scores == Scores(pages, query)
  {
    hide Counts, Rarity;
    scores := map[];
    var todo := pages.Keys;
    while todo != {}
      invariant todo <= pages.Keys && scores.Keys == pages.Keys - todo
      invariant forall j | j in scores :: scores[j] == Rarity(pages, pages[j] * query)
    {
      var j :| j in todo;
      var score := ScorePage(pages, frequency, j, query);
      scores := scores[j := score];
      todo := todo - {j};
    }
  }

  /** The scores of all candidates. */
  method RatePages(s: Sequence, sink: nat, recent: nat, queryTokens: nat, bs: nat) returns (scores: map<nat, real>)
    requires bs > 0 && s.State().TableOk(bs) && s.blockTable != [] && sink + recent <= |s.blockTable|
    requires Start(|s.blockTable| - 1, bs) <= s.physicalCachedTokens
    requires recent == 0 ==> s.State().Span() <= s.NumBlocks(bs)
    ensures scores == Scores(Candidates(s.State(), sink, recent, bs), QueryTokens(s.State(), queryTokens))
    ensures scores.Keys == Interval(sink, |s.blockTable| - recent)
  {
    hide Request.TableOk, Counts, Rarity, Candidates, QueryTokens, Scores, Interval, PagesFor;
    CandidatePages(s.State(), recent, bs);
    var pages, frequency := CollectPages(s, sink, recent, bs);
    scores := ScorePages(pages, frequency, QueryTokens(s.State(), queryTokens));
  }
}
