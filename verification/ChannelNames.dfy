/** Channel and bridge identifiers the router makes up. */
module ChannelNames {
  import opened Decimals

  type ChannelId = string

  /** The channel id chosen for the i-th forked leg of a call. */
  function LegName(caller: ChannelId, i: nat): (leg: ChannelId)
    ensures leg != ""
  {
    caller + "-leg-" + Decimal(i)
  }

  function BridgeName(caller: ChannelId): string {
    caller + "-bridge"
  }

  /** Leg names never collide: not across callers, and not within one call,
      whatever the caller ids contain. */
  lemma LegNameInjective(c1: ChannelId, i1: nat, c2: ChannelId, i2: nat)
    requires LegName(c1, i1) == LegName(c2, i2)
    ensures c1 == c2 && i1 == i2
  {
    var d1, d2 := Decimal(i1), Decimal(i2);
    assert LegName(c1, i1) == (c1 + "-leg") + "-" + d1;
    assert LegName(c2, i2) == (c2 + "-leg") + "-" + d2;
    DigitTailsAgree(c1 + "-leg", d1, c2 + "-leg", d2);
    DecimalInjective(i1, i2);
    assert c1 == (c1 + "-leg")[..|c1|] && c2 == (c2 + "-leg")[..|c2|];
  }

  lemma DigitTailsAgree(p1: string, d1: string, p2: string, d2: string)
    requires AllDigits(d1) && AllDigits(d2)
    requires p1 + "-" + d1 == p2 + "-" + d2
    ensures p1 == p2 && d1 == d2
  {
    var s1, s2 := p1 + "-" + d1, p2 + "-" + d2;
    assert s1[|p1|] == '-' && s2[|p2|] == '-';
    assert !(|d1| < |d2|);
    assert !(|d2| < |d1|);
    assert p1 == s1[..|p1|] && p2 == s2[..|p2|];
    assert d1 == s1[|p1| + 1..] && d2 == s2[|p2| + 1..];
  }
}
