/** From what the API accepts to the shares that cached rollouts give out. */
module ServedShares {
  import opened Wrappers
  import opened Types
  import opened Bucketing
  import opened BucketAgreement
  import opened RolloutShares
  import opened Schemas
  import opened ControlPlane
  import opened Propagation
  import opened Requests

  /** The rollout is in a rule or in the fallthrough of the flag. */
  ghost predicate Uses(flag: Flag, r: Rollout) {
    || flag.config.fallthrough.rollout == Some(r)
    || exists rule :: rule in flag.config.rules && rule.serve.rollout == Some(r)
  }

  lemma WholeIsWeighted(r: Rollout)
    ensures Weighted(Weights(r.variations)) <==> IsWhole(r)
  {
    TotalIsSum(r.variations);
    var vs, ws := r.variations, Weights(r.variations);
    hide Sum, TotalWeight;
    if Weighted(ws) {
      forall wv | wv in vs ensures 0 <= wv.weight <= WHOLE {
        var i :| 0 <= i < |vs| && vs[i] == wv;
        assert 0 <= ws[i] <= WHOLE;
      }
    }
    if IsWhole(r) {
      forall i | 0 <= i < |ws| ensures 0 <= ws[i] <= WHOLE {
        assert vs[i] in vs;
      }
    }
  }

  /** In every run, the weights of every rollout of every cached flag lie between 0 and 100000 and add up to
      100000. */
  lemma CachedRolloutsAreWhole(w: World, steps: seq<Step>, env: Id, k: string, r: Rollout)
    requires Initial(w) && CanRun(w, steps) && env in Run(w, steps).cache
    requires k in Run(w, steps).cache[env].rs.flags && Uses(Run(w, steps).cache[env].rs.flags[k], r)
    ensures IsWhole(r)
  {
    InitialInv(w);
    RunKeepsInv(w, steps);
    CacheIsOld(Run(w, steps), env);
    var c := Run(w, steps).cache[env];
    assert WholeRollouts(c.flags[k].content.flag) && c.rs.flags[k] == c.flags[k].content.flag;
    hide Run, CanRun, Inv, IsWhole, Weighted;
    WholeIsWeighted(r);
  }

  /** So every entry of every cached rollout gets its share of the hash prefixes. */
  lemma CachedShares(w: World, steps: seq<Step>, env: Id, k: string, r: Rollout, i: nat)
    requires Initial(w) && CanRun(w, steps) && env in Run(w, steps).cache
    requires k in Run(w, steps).cache[env].rs.flags && Uses(Run(w, steps).cache[env].rs.flags[k], r)
    requires i < |r.variations|
    ensures var slack := (|r.variations| - 1) * (512 * (|r.variations| + 1) + 2);
            -(slack + 1) * WHOLE < |GoPrefixesOf(Weights(r.variations), i)| * WHOLE - r.variations[i].weight * DENOM
                                 < (slack + 2) * WHOLE
  {
    hide Run, CanRun, Initial, IsWhole, Weighted, GoPrefixesOf, Uses;
    CachedRolloutsAreWhole(w, steps, env, k, r);
    WholeIsWeighted(r);
    GoShareOfEntry(Weights(r.variations), i);
  }
}
