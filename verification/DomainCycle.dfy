/** The cross-domain edges of a generated dataset: each domain is linked to the next domain of its
    tenant, and the last one back to the first.
 */
module DomainCycle {
  import opened Outcomes

  /** `_cross_domain_target`. */
  function CrossDomainTarget(d: nat, domains: nat, tenants: nat): Option<nat>
    requires tenants > 0
  {
    var later := d + tenants;
    if later < domains then Some(later)
    else if d % tenants != d then Some(d % tenants)
    else None
  }

  predicate SameTenant(d: nat, e: nat, tenants: nat)
    requires tenants > 0
  {
    d % tenants == e % tenants
  }

  function Next(d: nat, domains: nat, tenants: nat): nat
    requires tenants > 0
  {
    var target := CrossDomainTarget(d, domains, tenants);
    if target.Some? then target.value else d
  }

  function Follow(d: nat, steps: nat, domains: nat, tenants: nat): nat
    requires tenants > 0
  {
    if steps == 0 then d else Next(Follow(d, steps - 1, domains, tenants), domains, tenants)
  }

  /** The domains of one tenant. */
  function Members(d: nat, domains: nat, tenants: nat): set<nat>
    requires tenants > 0
  {
    set e: nat | e < domains && SameTenant(d, e, tenants)
  }

  // --------------------------------------------------------------- positions in the tenant

  /** How many domains a tenant has, by arithmetic. */
  function Size(rest: nat, domains: nat, tenants: nat): nat
    requires tenants > 0 && rest < domains
  {
    (domains - 1 - rest) / tenants + 1
  }

  lemma SizeBounds(rest: nat, domains: nat, tenants: nat)
    requires tenants > 0 && rest < domains
    ensures var m := Size(rest, domains, tenants);
            rest + (m - 1) * tenants < domains <= rest + m * tenants
  {
    var k := (domains - 1 - rest) / tenants;
    assert k * tenants <= domains - 1 - rest < k * tenants + tenants;
    assert (k + 1) * tenants == k * tenants + tenants;
  }

  lemma MulMonotone(a: int, b: int, k: nat)
    requires a <= b
    ensures a * k <= b * k
  {
  }

  /** A position is a domain exactly below the size. */
  lemma PositionExists(rest: nat, q: nat, domains: nat, tenants: nat)
    requires tenants > 0 && rest < domains
    ensures rest + q * tenants < domains <==> q < Size(rest, domains, tenants)
  {
    SizeBounds(rest, domains, tenants);
    var m := Size(rest, domains, tenants);
    if q < m { MulMonotone(q, m - 1, tenants); } else { MulMonotone(m, q, tenants); }
  }

  lemma Decompose(d: nat, tenants: nat)
    requires tenants > 0
    ensures d == d % tenants + (d / tenants) * tenants && d % tenants <= d
  {
    assert (d / tenants) * tenants <= d;
  }

  lemma Compose(rest: nat, q: nat, tenants: nat)
    requires tenants > 0 && rest < tenants
    ensures (rest + q * tenants) % tenants == rest && (rest + q * tenants) / tenants == q
  {
    var d := rest + q * tenants;
    Decompose(d, tenants);
    QuotientIsUnique(rest, q, d % tenants, d / tenants, tenants);
  }

  lemma QuotientIsUnique(rest: nat, q: nat, r: nat, p: nat, tenants: nat)
    requires rest < tenants && r < tenants && rest + q * tenants == r + p * tenants
    ensures rest == r && q == p
  {
    if p < q { MulMonotone(p + 1, q, tenants); }
    if q < p { MulMonotone(q + 1, p, tenants); }
  }

  lemma WrapOnce(a: nat, m: nat)
    requires m > 0 && a < 2 * m
    ensures a % m == if a < m then a else a - m
  {
  }

  /** One step advances the position by one, and wraps after the last. */
  lemma NextPosition(rest: nat, q: nat, domains: nat, tenants: nat)
    requires rest < tenants && rest + q * tenants < domains
    ensures var m := Size(rest, domains, tenants);
            q < m && Next(rest + q * tenants, domains, tenants) == rest + ((q + 1) % m) * tenants
  {
    hide Size;
    var m := Size(rest, domains, tenants);
    PositionExists(rest, q, domains, tenants);
    PositionExists(rest, q + 1, domains, tenants);
    Compose(rest, q, tenants);
    OneMore(rest, q, tenants);
    WrapOnce(q + 1, m);
  }

  lemma OneMore(rest: nat, q: nat, tenants: nat)
    ensures rest + q * tenants + tenants == rest + (q + 1) * tenants
  {
  }

  lemma ModStep(a: nat, m: nat)
    requires m > 0
    ensures (a % m + 1) % m == (a + 1) % m
  {
    Decompose(a, m);
    var k, r := a / m, a % m;
    WrapOnce(r + 1, m);
    if r + 1 < m {
      Compose(r + 1, k, m);
    } else {
      OneMore(0, k, m);
      Compose(0, k + 1, m);
    }
  }

  lemma {:induction false} FollowPosition(rest: nat, q: nat, steps: nat, domains: nat, tenants: nat)
    requires rest < tenants && rest + q * tenants < domains
    ensures var m := Size(rest, domains, tenants);
            Follow(rest + q * tenants, steps, domains, tenants) == rest + ((q + steps) % m) * tenants
    decreases steps
  {
    hide Next;
    hide Size;
    var m := Size(rest, domains, tenants);
    PositionExists(rest, q, domains, tenants);
    if steps == 0 {
      WrapOnce(q, m);
    } else {
      FollowPosition(rest, q, steps - 1, domains, tenants);
      var p := (q + steps - 1) % m;
      PositionExists(rest, p, domains, tenants);
      NextPosition(rest, p, domains, tenants);
      ModStep(q + steps - 1, m);
    }
  }

  // ------------------------------------------------------------------------------ the cycle

  lemma TargetStaysInTenant(d: nat, domains: nat, tenants: nat)
    requires tenants > 0 && d < domains
    ensures Next(d, domains, tenants) < domains && SameTenant(d, Next(d, domains, tenants), tenants)
  {
    Decompose(d, tenants);
    var r, q := d % tenants, d / tenants;
    NextPosition(r, q, domains, tenants);
    var m := Size(r, domains, tenants);
    PositionExists(r, (q + 1) % m, domains, tenants);
    Compose(r, (q + 1) % m, tenants);
  }

  /** A domain has no target exactly when it is alone in its tenant. */
  lemma NoTargetMeansAlone(d: nat, domains: nat, tenants: nat)
    requires tenants > 0 && d < domains
    ensures CrossDomainTarget(d, domains, tenants).None? <==> Members(d, domains, tenants) == {d}
  {
    Decompose(d, tenants);
    var r, q := d % tenants, d / tenants;
    assert d in Members(d, domains, tenants);
    if CrossDomainTarget(d, domains, tenants).None? {
      PositionExists(r, 1, domains, tenants);
      assert q == 0 by { if q >= 1 { MulMonotone(1, q, tenants); } }
      forall e | e in Members(d, domains, tenants) ensures e == d {
        Decompose(e, tenants);
        PositionExists(r, e / tenants, domains, tenants);
      }
    } else {
      TargetStaysInTenant(d, domains, tenants);
      assert Next(d, domains, tenants) in Members(d, domains, tenants);
    }
  }

  /** Following targets from any domain of a tenant passes through every other one, so the tenant
      is one cycle and not several. */
  lemma EveryMemberIsReached(d: nat, e: nat, domains: nat, tenants: nat) returns (steps: nat)
    requires tenants > 0 && d < domains && e < domains && SameTenant(d, e, tenants)
    ensures steps < Size(d % tenants, domains, tenants) && Follow(d, steps, domains, tenants) == e
  {
    hide Size;
    hide Next;
    hide Follow;
    Decompose(d, tenants);
    Decompose(e, tenants);
    var r, q, p := d % tenants, d / tenants, e / tenants;
    var m := Size(r, domains, tenants);
    PositionExists(r, q, domains, tenants);
    PositionExists(r, p, domains, tenants);
    steps := if p >= q then p - q else p + m - q;
    FollowPosition(r, q, steps, domains, tenants);
    WrapOnce(q + steps, m);
  }

  /** The walk is back after as many steps as the tenant has domains, and not before. */
  lemma CycleLength(d: nat, steps: nat, domains: nat, tenants: nat)
    requires tenants > 0 && d < domains && 0 < steps <= Size(d % tenants, domains, tenants)
    ensures Follow(d, steps, domains, tenants) == d <==> steps == Size(d % tenants, domains, tenants)
  {
    hide Size;
    hide Next;
    hide Follow;
    Decompose(d, tenants);
    var r, q := d % tenants, d / tenants;
    var m := Size(r, domains, tenants);
    PositionExists(r, q, domains, tenants);
    FollowPosition(r, q, steps, domains, tenants);
    WrapOnce(q + steps, m);
    if Follow(d, steps, domains, tenants) == d { QuotientIsUnique(r, (q + steps) % m, r, q, tenants); }
  }

  lemma {:induction false} SizeCounts(d: nat, domains: nat, tenants: nat, k: nat)
    requires tenants > 0 && d < domains && k <= Size(d % tenants, domains, tenants)
    ensures |set q: nat | q < k :: d % tenants + q * tenants| == k
    decreases k
  {
    var r := d % tenants;
    var upTo := set q: nat | q < k :: r + q * tenants;
    if k == 0 {
      assert upTo == {};
    } else {
      var fewer := set q: nat | q < k - 1 :: r + q * tenants;
      Decompose(d, tenants);
      SizeCounts(d, domains, tenants, k - 1);
      assert upTo == fewer + {r + (k - 1) * tenants};
      forall q: nat | q < k - 1 ensures r + q * tenants != r + (k - 1) * tenants {
        Compose(r, q, tenants);
        Compose(r, k - 1, tenants);
      }
    }
  }

  /** The cycle's length is the number of the tenant's domains. */
  lemma SizeIsCardinality(d: nat, domains: nat, tenants: nat)
    requires tenants > 0 && d < domains
    ensures d % tenants < domains && Size(d % tenants, domains, tenants) == |Members(d, domains, tenants)|
  {
    Decompose(d, tenants);
    var r := d % tenants;
    var m := Size(r, domains, tenants);
    SizeCounts(d, domains, tenants, m);
    var all := set q: nat | q < m :: r + q * tenants;
    forall e ensures e in all <==> e in Members(d, domains, tenants) {
      if e in all {
        var q: nat :| q < m && e == r + q * tenants;
        PositionExists(r, q, domains, tenants);
        Compose(r, q, tenants);
      }
      if e in Members(d, domains, tenants) {
        Decompose(e, tenants);
        PositionExists(r, e / tenants, domains, tenants);
      }
    }
    assert all == Members(d, domains, tenants);
  }

  /** Different domains have different targets. */
  lemma TargetsAreDistinct(d: nat, e: nat, domains: nat, tenants: nat)
    requires tenants > 0 && d < domains && e < domains && Next(d, domains, tenants) == Next(e, domains, tenants)
    ensures d == e
  {
    hide Size;
    hide Next;
    hide Follow;
    TargetStaysInTenant(d, domains, tenants);
    TargetStaysInTenant(e, domains, tenants);
    Decompose(d, tenants);
    Decompose(e, tenants);
    var r, q, p := d % tenants, d / tenants, e / tenants;
    var m := Size(r, domains, tenants);
    NextPosition(r, q, domains, tenants);
    NextPosition(r, p, domains, tenants);
    QuotientIsUnique(r, (q + 1) % m, r, (p + 1) % m, tenants);
    WrapOnce(q + 1, m);
    WrapOnce(p + 1, m);
  }
}
