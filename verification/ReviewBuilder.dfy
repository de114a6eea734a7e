/**
  * The review set as the search builds it: options pushed one after the other,
  * a rate at most once, until the list is full.
  */
module ReviewBuilder {
  import opened Selection
  import opened SearchHistory
  import opened Review

  function OfferAll(roles: seq<Role>, chosen: seq<Option<Candidate>>): (r: seq<ReviewOption>)
    requires |roles| == |chosen|
    ensures |r| <= |roles|
  {
    if roles == [] then []
    else Offer(OfferAll(roles[..|roles| - 1], chosen[..|roles| - 1]), roles[|roles| - 1], chosen[|roles| - 1])
  }

  lemma OfferThree(a: Role, x: Option<Candidate>, b: Role, y: Option<Candidate>, c: Role, z: Option<Candidate>)
    ensures OfferAll([a, b, c], [x, y, z]) == Offer(Offer(Offer([], a, x), b, y), c, z)
  {
    assert [a, b, c][..2] == [a, b] && [a, b][..1] == [a] && [x, y, z][..2] == [x, y] && [x, y][..1] == [x];
    assert OfferAll([a], [x]) == Offer([], a, x) by { assert [a][..0] == [] && [x][..0] == []; }
    assert OfferAll([a, b], [x, y]) == Offer(OfferAll([a], [x]), b, y);
  }

  /** The three named roles in order, each rate only once. */
  method PushNamed(recommended: Option<Candidate>, quality: Option<Candidate>, throughput: Option<Candidate>)
    returns (options: seq<ReviewOption>)
    ensures |options| <= MAX_OPTIONS
    ensures options
         == Offer(Offer(Offer([], Recommended, recommended), QualityFirst, quality), ThroughputFirst, throughput)
  {
    var roles := [Recommended, QualityFirst, ThroughputFirst];
    var chosen := [recommended, quality, throughput];
    options := [];
    for i := 0 to 3
      invariant options == OfferAll(roles[..i], chosen[..i])
    {
      assert roles[..i + 1][..i] == roles[..i] && chosen[..i + 1][..i] == chosen[..i];
      if chosen[i].Some? && !Offered(options, chosen[i].value.Rate()) {
        options := options + [ReviewOption(roles[i], chosen[i].value)];
      }
    }
    assert roles[..3] == roles && chosen[..3] == chosen;
    OfferThree(Recommended, recommended, QualityFirst, quality, ThroughputFirst, throughput);
  }

  /** Alternatives in order while there is room. */
  method PushAlternatives(named: seq<ReviewOption>, remaining: seq<Candidate>) returns (options: seq<ReviewOption>)
    requires |named| <= MAX_OPTIONS
    ensures options == Truncate(named + Balanced(remaining))
  {
    options := named;
    var i := 0;
    while i < |remaining| && |options| < MAX_OPTIONS
      invariant 0 <= i <= |remaining| && |options| <= MAX_OPTIONS
      invariant options == named + Balanced(remaining)[..i]
    {
      options := options + [ReviewOption(BalancedAlternative, remaining[i])];
      i := i + 1;
    }
    assert Truncate(named + Balanced(remaining)) == options;
  }

  /** The review options of a result: none before the search ends. */
  method BuildReviewOptions(r: SearchResult) returns (options: seq<ReviewOption>)
    ensures options == ReviewOptions(r)
  {
    if !r.Terminal() {
      return [];
    }
    var frontier := Frontier(Candidates(r.Basis()));
    if frontier == [] {
      return [];
    }
    var named := PushNamed(Choose(r, frontier), BestDelay(frontier), BestThroughput(frontier));
    options := PushAlternatives(named, Remaining(r.Basis(), frontier, named));
  }
}
