/** Choosing the winning branch of a cycle: most accepted tokens first, lowest branch id on a tie. */
module Selection {

  datatype Ballot = Ballot(accepted: nat, branch: nat)

  predicate Beats(x: Ballot, y: Ballot) {
    x.accepted > y.accepted || (x.accepted == y.accepted && x.branch < y.branch)
  }

  /** The index a left-to-right scan ends on. */
  function Winner(ballots: seq<Ballot>): (w: nat)
    requires |ballots| > 0
    ensures w < |ballots|
  {
    var last := |ballots| - 1;
    if last == 0 then 0
    else var w := Winner(ballots[..last]); if Beats(ballots[last], ballots[w]) then last else w
  }

  method SelectWinner(ballots: seq<Ballot>) returns (w: nat)
    requires |ballots| > 0
    ensures w == Winner(ballots)
  {
    w := 0;
    for i := 1 to |ballots|
      invariant w < i && w == Winner(ballots[..i])
    {
      assert ballots[..i + 1][..i] == ballots[..i];
      if ballots[i].accepted > ballots[w].accepted {
        w := i;
      } else if ballots[i].accepted == ballots[w].accepted && ballots[i].branch < ballots[w].branch {
        w := i;
      }
    }
    assert ballots[..|ballots|] == ballots;
  }

  /** No ballot beats the winner. */
  lemma {:induction false} WinnerIsUnbeaten(ballots: seq<Ballot>, i: nat)
    requires i < |ballots|
    ensures !Beats(ballots[i], ballots[Winner(ballots)])
    decreases |ballots|
  {
    var last := |ballots| - 1;
    if last > 0 {
      WinnerIsUnbeaten(ballots[..last], if i < last then i else 0);
    }
  }

  /** Branch ids that increase along the list, as both drivers number them. */
  predicate Ascending(ballots: seq<Ballot>) {
    forall i, j :: 0 <= i < j < |ballots| ==> ballots[i].branch < ballots[j].branch
  }

  /** Then the winner is the first ballot with the most accepted tokens. */
  lemma FirstOfTheBest(ballots: seq<Ballot>, i: nat)
    requires i < |ballots| && Ascending(ballots)
    ensures ballots[i].accepted <= ballots[Winner(ballots)].accepted
    ensures i < Winner(ballots) ==> ballots[i].accepted < ballots[Winner(ballots)].accepted
  {
    WinnerIsUnbeaten(ballots, i);
  }

  predicate DistinctBranches(ballots: seq<Ballot>) {
    forall i, j :: 0 <= i < j < |ballots| ==> ballots[i].branch != ballots[j].branch
  }

  /** In whatever order distinct branches are compared, the same one wins. */
  lemma OrderDoesNotMatter(b1: seq<Ballot>, b2: seq<Ballot>)
    requires |b1| > 0 && |b2| > 0 && multiset(b1) == multiset(b2) && DistinctBranches(b1)
    ensures b1[Winner(b1)] == b2[Winner(b2)]
  {
    var x, y := b1[Winner(b1)], b2[Winner(b2)];
    assert x in multiset(b2) && y in multiset(b1);
    var i :| 0 <= i < |b1| && b1[i] == y;
    var j :| 0 <= j < |b2| && b2[j] == x;
    WinnerIsUnbeaten(b1, i);
    WinnerIsUnbeaten(b2, j);
    assert !Beats(y, x) && !Beats(x, y);
  }
}
