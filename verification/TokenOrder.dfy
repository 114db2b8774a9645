/** The tokens that are kept stand in their old order. */
module TokenOrder {
  import opened Compression

  lemma {:induction false} CountGrows(keep: seq<bool>, i: nat, j: nat)
    requires i <= j <= |keep|
    ensures Count(keep[..i]) <= Count(keep[..j])
    decreases j
  {
    if i < j {
      CountGrows(keep, i, j - 1);
      assert keep[..j][..j - 1] == keep[..j - 1];
    }
  }

  /** A kept token comes right behind as many as were kept before it. */
  lemma {:induction false} KeptAt(tokens: seq<string>, keep: seq<bool>, i: nat)
    requires |keep| == |tokens| && i < |keep| && keep[i]
    ensures Count(keep[..i]) < |Kept(tokens, keep)| && Kept(tokens, keep)[Count(keep[..i])] == tokens[i]
  {
    var n := |keep| - 1;
    if i < n {
      KeptAt(tokens[..n], keep[..n], i);
      assert keep[..n][..i] == keep[..i];
    }
  }

  /** Of two kept tokens the earlier stays the earlier, and nothing else is put out. */
  lemma KeptInOrder(tokens: seq<string>, keep: seq<bool>, i: nat, j: nat)
    requires |keep| == |tokens| && i < j < |keep| && keep[i] && keep[j]
    ensures var kept, a, b := Kept(tokens, keep), Count(keep[..i]), Count(keep[..j]);
      a < b < |kept| == Count(keep) && kept[a] == tokens[i] && kept[b] == tokens[j]
  {
    KeptAt(tokens, keep, i);
    KeptAt(tokens, keep, j);
    CountGrows(keep, i + 1, j);
    assert keep[..i + 1][..i] == keep[..i];
  }
}
