/** What recording and retiring the branches of a cycle comes to. */
module Branches {
  import opened Engine
  import Words

  /** The branch list of an engine: ids 1..n in order. */
  predicate Numbered(branches: seq<Branch>, n: nat) {
    |branches| == n && forall i :: 0 <= i < n ==> branches[i].id == i + 1
  }

  lemma FindsByNumber(branches: seq<Branch>, n: nat, id: nat)
    requires Numbered(branches, n)
    ensures FindBranch(branches, id) == if 1 <= id <= n then Words.Some(id - 1) else Words.None
  {
    if 1 <= id <= n {
      assert branches[id - 1].id == id;
    }
  }

  /** The first i branches of a first cycle: only the kept one is active. */
  function Fresh(template: Branch, i: nat, keep: nat): (r: seq<Branch>)
    ensures Numbered(r, i)
  {
    seq(i, j requires 0 <= j < i => template.(id := j + 1, retired := j + 1 != keep))
  }

  /** Losers among the first i branches. */
  function Losers(i: nat, keep: nat): nat {
    if 1 <= keep <= i then i - 1 else i
  }

  lemma {:induction false} FirstCycle(template: Branch, n: nat, keep: nat)
    ensures RetireOthers([], template, n, keep) == Retirement(Fresh(template, n, keep), 2 * Losers(n, keep))
  {
    if n > 0 {
      FirstCycle(template, n - 1, keep);
      FirstStep(template, n, keep);
    }
  }

  lemma FirstStep(template: Branch, n: nat, keep: nat)
    requires n > 0
    ensures RetireOne(Retirement(Fresh(template, n - 1, keep), 2 * Losers(n - 1, keep)), template, n, keep)
            == Retirement(Fresh(template, n, keep), 2 * Losers(n, keep))
  {
    hide FindBranch;
    var before := Fresh(template, n - 1, keep);
    FindsByNumber(before, n - 1, n);
    var longer := before + [template.(id := n, retired := n != keep)];
    assert longer == Fresh(template, n, keep);
    FindsByNumber(longer, n, n);
    assert n != keep ==> longer[n - 1 := longer[n - 1].(retired := true)] == longer;
  }

  /** A later cycle: of the first i branches all but the kept one are retired, the rest is as it was. */
  function Settled(branches: seq<Branch>, i: nat, keep: nat): (r: seq<Branch>)
    requires i <= |branches|
    ensures |r| == |branches|
  {
    seq(|branches|, j requires 0 <= j < |branches| =>
      if j < i && j + 1 != keep then branches[j].(retired := true) else branches[j])
  }

  lemma {:induction false} LaterCycle(branches: seq<Branch>, template: Branch, n: nat, i: nat, keep: nat)
    requires Numbered(branches, n) && i <= n
    ensures RetireOthers(branches, template, i, keep) == Retirement(Settled(branches, i, keep), Losers(i, keep))
  {
    if i > 0 {
      LaterCycle(branches, template, n, i - 1, keep);
      LaterStep(branches, template, n, i, keep);
    } else {
      assert Settled(branches, 0, keep) == branches;
    }
  }

  lemma LaterStep(branches: seq<Branch>, template: Branch, n: nat, i: nat, keep: nat)
    requires Numbered(branches, n) && 0 < i <= n
    ensures RetireOne(Retirement(Settled(branches, i - 1, keep), Losers(i - 1, keep)), template, i, keep)
            == Retirement(Settled(branches, i, keep), Losers(i, keep))
  {
    hide FindBranch;
    var before := Settled(branches, i - 1, keep);
    FindsByNumber(before, n, i);
    assert i == keep ==> Settled(branches, i, keep) == before;
    assert i != keep ==> before[i - 1 := before[i - 1].(retired := true)] == Settled(branches, i, keep);
  }

  /** When every branch but one is retired, that one decides the count of active branches. */
  lemma {:induction false} OnlyOneActive(branches: seq<Branch>, keep: nat)
    requires forall i :: 0 <= i < |branches| && i + 1 != keep ==> branches[i].retired
    ensures ActiveCount(branches) == if 1 <= keep <= |branches| && !branches[keep - 1].retired then 1 else 0
    decreases |branches|
  {
    if |branches| > 0 {
      OnlyOneActive(branches[..|branches| - 1], keep);
    }
  }

  /**
   * The branches after a commit: numbered, every loser retired, the winner active exactly if this was the first
   * cycle or it was active before. The loser count is doubled on the first cycle, when every loser is new.
   */
  lemma CommitRetiresLosers(branches: seq<Branch>, template: Branch, n: nat, keep: nat)
    requires 1 <= keep <= n && (branches == [] || Numbered(branches, n))
    ensures var r := RetireOthers(branches, template, n, keep);
            && Numbered(r.branches, n)
            && (forall i :: 0 <= i < n && i + 1 != keep ==> r.branches[i].retired)
            && (r.branches[keep - 1].retired <==> branches != [] && branches[keep - 1].retired)
            && ActiveCount(r.branches) == (if r.branches[keep - 1].retired then 0 else 1)
            && r.losers == (if branches == [] then 2 * (n - 1) else n - 1)
  {
    hide RetireOthers, ActiveCount;
    if branches == [] {
      FirstCycle(template, n, keep);
    } else {
      LaterCycle(branches, template, n, n, keep);
    }
    OnlyOneActive(RetireOthers(branches, template, n, keep).branches, keep);
  }

  /** Retiring all leaves none active and keeps the numbering. */
  lemma AllRetiredCount(branches: seq<Branch>)
    ensures ActiveCount(AllRetired(branches)) == 0
    ensures forall n :: Numbered(branches, n) ==> Numbered(AllRetired(branches), n)
  {
    OnlyOneActive(AllRetired(branches), 0);
  }
}
