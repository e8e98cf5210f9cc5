/** The time steps at which the sliding semaphore is signalled, every nd-th one, and how far the
    signals a returned wait has seen let partition 0 have come. */
module SignalPoints {
  import opened Division

  predicate SignalPoint(nd: nat, t: nat) {
    nd >= 1 && t % nd == 0
  }

  /** The same by counting up in steps of nd. */
  predicate Multiple(nd: nat, t: nat) {
    t == 0 || (1 <= nd <= t && Multiple(nd, t - nd))
  }

  lemma {:induction false} SignalPointIs(nd: nat, t: nat, q: nat)
    requires nd >= 1 && t == q * nd
    ensures Multiple(nd, t)
    decreases q
  {
    if q > 0 {
      assert q * nd == (q - 1) * nd + nd;
      SignalPointIs(nd, t - nd, q - 1);
    }
  }

  lemma {:induction false} MultipleIs(nd: nat, t: nat) returns (q: nat)
    requires nd >= 1 && Multiple(nd, t)
    ensures t == q * nd
  {
    q := 0;
    if t > 0 {
      q := MultipleIs(nd, t - nd);
      assert (q + 1) * nd == q * nd + nd;
      q := q + 1;
    }
  }

  lemma AttachedAt(nd: nat, t: nat)
    requires nd >= 1 && t % nd == 0
    ensures Multiple(nd, t)
  {
    QuotientIs(t, nd, t / nd);
    assert t == nd * (t / nd) + t % nd;
    SignalPointIs(nd, t, t / nd);
  }

  lemma LastSignalPoint(nd: nat, t: nat) returns (point: nat)
    requires nd >= 1
    ensures SignalPoint(nd, point) && t - nd < point <= t
  {
    point := t - t % nd;
    assert t == nd * (t / nd) + t % nd;
    MultipleRemainder(t / nd, nd);
  }

  /** The layer that partition 0 has reached for certain when the wait of time step t returns: one
      above the last multiple of nd before t, and nothing in the first nd steps. */
  function Reached(nd: nat, t: nat): nat
    requires nd >= 1
  {
    if t <= nd then 0 else (t - 1) / nd * nd + 1
  }

  lemma ReachedBySignal(nd: nat, t: nat, lower: nat)
    requires nd >= 1 && Multiple(nd, lower) && t - nd <= lower && t > nd
    ensures lower > 0 && Reached(nd, t) <= lower + 1
  {
    var q := (t - 1) / nd;
    var p := MultipleIs(nd, lower);
    QuotientIs(t - 1, nd, q);
    MultipleGap(p, q, nd);
  }

  lemma ReachedAtLeast(nd: nat, t: nat)
    requires nd >= 1
    ensures t > nd ==> t - nd + 1 <= Reached(nd, t) <= t
  {
    if t > nd {
      QuotientIs(t - 1, nd, (t - 1) / nd);
    }
  }
}
