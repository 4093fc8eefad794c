/**
 Pool routing (cmd/cordum-scheduler/config_overlay.go, core/infra/config/pools.go): which pools each
 topic may use, without the pools that are draining or inactive.
 */
module Routing {
  datatype Pool = Pool(status: string, requires_: seq<string>)

  datatype PoolsConfig = PoolsConfig(topics: map<string, seq<string>>, pools: map<string, Pool>)

  datatype PoolRouting = PoolRouting(topics: map<string, seq<string>>, pools: map<string, seq<string>>)

  /** An empty status means active. */
  function EffectiveStatus(p: Pool): string {
    if p.status == "" then "active" else p.status
  }

  /** A pool without a declaration is not inactive. */
  predicate Inactive(cfg: PoolsConfig, name: string) {
    name in cfg.pools
      && (EffectiveStatus(cfg.pools[name]) == "draining" || EffectiveStatus(cfg.pools[name]) == "inactive")
  }

  /** The pools of a topic that may take work, in the order listed. */
  function Active(cfg: PoolsConfig, names: seq<string>): seq<string> {
    if names == [] then []
    else
      var before, last := Active(cfg, names[..|names| - 1]), names[|names| - 1];
      if Inactive(cfg, last) then before else before + [last]
  }

  function RoutingOf(cfg: PoolsConfig): PoolRouting {
    PoolRouting(
      map t | t in cfg.topics && Active(cfg, cfg.topics[t]) != [] :: Active(cfg, cfg.topics[t]),
      map p | p in cfg.pools && !Inactive(cfg, p) :: cfg.pools[p].requires_)
  }

  // ---------------------------------------------------------------- buildRouting

  /** The pools not visited yet are in `todo`. */
  method SplitPools(cfg: PoolsConfig) returns (pools: map<string, seq<string>>, inactive: set<string>)
    ensures pools == RoutingOf(cfg).pools
    ensures forall p :: p in inactive <==> Inactive(cfg, p)
  {
    pools, inactive := map[], {};
    var todo := cfg.pools.Keys;
    while todo != {}
      invariant todo <= cfg.pools.Keys
      invariant pools == map p | p in cfg.pools && p !in todo && !Inactive(cfg, p) :: cfg.pools[p].requires_
      invariant forall p :: p in inactive <==> p !in todo && Inactive(cfg, p)
      decreases todo
    {
      var name :| name in todo;
      todo := todo - {name};
      var s := EffectiveStatus(cfg.pools[name]);
      if s == "draining" || s == "inactive" {
        inactive := inactive + {name};
        continue;
      }
      pools := pools[name := cfg.pools[name].requires_];
    }
  }

  method ActivePools(cfg: PoolsConfig, names: seq<string>, inactive: set<string>) returns (active: seq<string>)
    requires forall p :: p in inactive <==> Inactive(cfg, p)
    ensures active == Active(cfg, names)
  {
    hide Inactive;
    active := [];
    for i := 0 to |names|
      invariant active == Active(cfg, names[..i])
    {
      assert names[..i + 1][..i] == names[..i];
      if names[i] !in inactive { active := active + [names[i]]; }
    }
    assert names[..|names|] == names;
  }

  method BuildRouting(cfg: PoolsConfig) returns (r: PoolRouting)
    ensures r == RoutingOf(cfg)
  {
    hide Active, Inactive;
    var pools, inactive := SplitPools(cfg);
    var topics: map<string, seq<string>> := map[];
    var todo := cfg.topics.Keys;
    while todo != {}
      invariant todo <= cfg.topics.Keys
      invariant topics == map t | t in cfg.topics && t !in todo
                  && Active(cfg, cfg.topics[t]) != [] :: Active(cfg, cfg.topics[t])
      decreases todo
    {
      var topic :| topic in todo;
      todo := todo - {topic};
      var active := ActivePools(cfg, cfg.topics[topic], inactive);
      if |active| > 0 { topics := topics[topic := active]; }
    }
    r := PoolRouting(topics, pools);
  }

  // ---------------------------------------------------------------- what the routing says

  lemma {:induction false} ActiveMembers(cfg: PoolsConfig, names: seq<string>, p: string)
    ensures p in Active(cfg, names) <==> p in names && !Inactive(cfg, p)
  {
    hide Inactive;
    if names != [] {
      var n := |names| - 1;
      ActiveMembers(cfg, names[..n], p);
      assert names == names[..n] + [names[n]];
    }
  }

  /** How many of the listed pools are kept. */
  function Kept(cfg: PoolsConfig, names: seq<string>): nat {
    if names == [] then 0 else Kept(cfg, names[..|names| - 1]) + (if Inactive(cfg, names[|names| - 1]) then 0 else 1)
  }

  /** Order and repetitions: the pool listed at i, if active, is at the place given by the number of
      active pools before it. */
  lemma {:induction false} ActiveOrder(cfg: PoolsConfig, names: seq<string>, i: nat)
    requires i < |names| && !Inactive(cfg, names[i])
    ensures |Active(cfg, names)| == Kept(cfg, names)
    ensures Kept(cfg, names[..i]) < Kept(cfg, names) && Active(cfg, names)[Kept(cfg, names[..i])] == names[i]
  {
    hide Inactive;
    var n := |names| - 1;
    KeptIsLength(cfg, names);
    KeptIsLength(cfg, names[..n]);
    if i < n {
      ActiveOrder(cfg, names[..n], i);
      assert names[..n][..i] == names[..i];
    }
  }

  lemma {:induction false} KeptIsLength(cfg: PoolsConfig, names: seq<string>)
    ensures |Active(cfg, names)| == Kept(cfg, names)
  {
    hide Inactive;
    if names != [] { KeptIsLength(cfg, names[..|names| - 1]); }
  }

  /** A topic is routed to exactly its listed pools, declared or not, whose status is not draining or
      inactive; it is not routed at all exactly when there is none; and the pools offered are the
      declared ones of another status, with what they require. */
  lemma RoutedExactly(cfg: PoolsConfig, t: string, p: string)
    ensures t in RoutingOf(cfg).topics && p in RoutingOf(cfg).topics[t] <==>
              && t in cfg.topics && p in cfg.topics[t]
              && (p in cfg.pools ==> cfg.pools[p].status !in {"draining", "inactive"})
    ensures t in RoutingOf(cfg).topics ==> RoutingOf(cfg).topics[t] != []
    ensures p in RoutingOf(cfg).pools <==> p in cfg.pools && cfg.pools[p].status !in {"draining", "inactive"}
    ensures p in RoutingOf(cfg).pools ==> RoutingOf(cfg).pools[p] == cfg.pools[p].requires_
  {
    hide Active;
    if t in cfg.topics { ActiveMembers(cfg, cfg.topics[t], p); }
  }
}
