/** Deterministic order ids of crates/trigger/src/run.rs: the level id, a dash, and the tick's timestamp. */
module OrderIds {
  import opened DecimalText

  function IntText(n: int): string {
    if n < 0 then "-" + NatText(-n) else NatText(n)
  }

  function OrderId(levelId: string, publishedAt: int): string {
    levelId + "-" + IntText(publishedAt)
  }

  lemma LastDash(s: string, n: nat)
    ensures var id := s + "-" + NatText(n);
            id[|s|] == '-' && forall k :: |s| < k < |id| ==> id[k] != '-'
  {
    var d := NatText(n);
    var id := s + "-" + d;
    forall k | |s| < k < |id| ensures id[k] != '-' {
      assert id[k] == d[k - |s| - 1];
    }
  }

  /** For ticks stamped at or after the epoch the id determines the level and the stamp. */
  lemma OrderIdInjective(level1: string, at1: nat, level2: string, at2: nat)
    requires OrderId(level1, at1) == OrderId(level2, at2)
    ensures level1 == level2 && at1 == at2
  {
    LastDash(level1, at1);
    LastDash(level2, at2);
    var whole := OrderId(level1, at1);
    assert |level1| == |level2|;
    assert level1 == whole[..|level1|] && level2 == whole[..|level2|];
    assert NatText(at1) == whole[|level1| + 1..] && NatText(at2) == whole[|level2| + 1..];
    NatTextInjective(at1, at2);
  }

  /** The level and stamp whose id a pair shares: a negative stamp writes the same id as the positive one for
      the level with a dash appended. */
  function Normal(levelId: string, at: int): (string, nat) {
    if at < 0 then (levelId + "-", -at) else (levelId, at)
  }

  lemma NormalWritesSame(levelId: string, at: int)
    ensures OrderId(levelId, at) == OrderId(Normal(levelId, at).0, Normal(levelId, at).1)
  {
    hide NatText;
    if at < 0 {
      assert levelId + "-" + ("-" + NatText(-at)) == levelId + "-" + "-" + NatText(-at);
    }
  }

  lemma NormalsAgreeIff(level1: string, at1: int, level2: string, at2: int)
    ensures Normal(level1, at1) == Normal(level2, at2) <==>
            || (level1 == level2 && at1 == at2)
            || (at1 < 0 && at2 == -at1 && level2 == level1 + "-")
            || (at2 < 0 && at1 == -at2 && level1 == level2 + "-")
  {
    if at1 < 0 && at2 < 0 {
      DashIsInjective(level1, level2);
    }
  }

  lemma DashIsInjective(s: string, t: string)
    ensures s + "-" == t + "-" <==> s == t
  {
    if s + "-" == t + "-" {
      assert s == (s + "-")[..|s|] && t == (t + "-")[..|t|];
    }
  }

  /** Exactly which pairs share an id: the same pair, or a level and its dash-suffixed namesake with opposite stamps. */
  lemma OrderIdsCollideIff(level1: string, at1: int, level2: string, at2: int)
    ensures OrderId(level1, at1) == OrderId(level2, at2) <==>
            || (level1 == level2 && at1 == at2)
            || (at1 < 0 && at2 == -at1 && level2 == level1 + "-")
            || (at2 < 0 && at1 == -at2 && level1 == level2 + "-")
  {
    hide OrderId, Normal;
    NormalWritesSame(level1, at1);
    NormalWritesSame(level2, at2);
    NormalsAgreeIff(level1, at1, level2, at2);
    var n1, n2 := Normal(level1, at1), Normal(level2, at2);
    if OrderId(n1.0, n1.1) == OrderId(n2.0, n2.1) {
      OrderIdInjective(n1.0, n1.1, n2.0, n2.1);
    }
  }
}
