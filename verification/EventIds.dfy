/** Event identifiers `evt_<n>`, as both runtimes print them and as cursors carry them. */
module EventIds {
  import opened Wrappers
  import Decimal

  const PREFIX: string := "evt_"

  function Show(n: nat): string {
    PREFIX + Decimal.Show(n)
  }

  /** An id is `evt_` and the number in decimal: evt_1, evt_12. */
  lemma {:induction false} IdsAre(n: nat)
    ensures Show(n)[..4] == "evt_" && Decimal.Parse(Show(n)[4..]) == Some(n)
    ensures Show(1) == "evt_1" && Show(12) == "evt_12"
  {
    Decimal.ParseShow(n);
    assert Show(n)[4..] == Decimal.Show(n);
    assert Decimal.Show(12) == Decimal.Show(1) + [Decimal.Digit(2)];
  }

  /** Python's `str.removeprefix("evt_")`. */
  function RemovePrefix(s: string): string {
    if PREFIX <= s then s[|PREFIX|..] else s
  }

  lemma {:induction false} RemovePrefixOfId(n: nat)
    ensures RemovePrefix(Show(n)) == Decimal.Show(n)
  {
    assert PREFIX <= Show(n);
    assert Show(n)[|PREFIX|..] == Decimal.Show(n);
  }

  lemma {:induction false} ShowInjective(m: nat, n: nat)
    ensures Show(m) == Show(n) ==> m == n
  {
    if Show(m) == Show(n) {
      RemovePrefixOfId(m);
      RemovePrefixOfId(n);
      Decimal.ShowInjective(m, n);
    }
  }
}
