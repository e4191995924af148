/**
 Mined supply under a halving schedule, in exact units of 1/1024 token: the era-by-era loop, the
 per-block reward, and the cap. Ten halvings of a whole-token reward stay whole in these units.
 */
module Supply {
  import opened Prelude

  const UNITS: nat := 1024
  const ERAS: nat := 10

  /** `reserved` is what is issued outside mining. */
  datatype Config = Config(supplyCap: nat, blockReward: nat, interval: nat, reserved: nat)

  const MAINNET := Config(150_000_000, 3, 25_000_000, 9_990_000 + 20_000_000)
  const TESTNET := Config(50_000_000, 5, 10_000_000, 1_990_000 + 3_000_000)

  ghost predicate Valid(cfg: Config) {
    cfg.interval > 0 && cfg.reserved <= cfg.supplyCap
  }

  function MaxMined(cfg: Config): nat
    requires Valid(cfg)
  {
    (cfg.supplyCap - cfg.reserved) * UNITS
  }

  function Pow2(e: nat): (r: nat)
    ensures r > 0
  {
    if e == 0 then 1 else 2 * Pow2(e - 1)
  }

  /** The reward of an era; it stops halving after the tenth. */
  function EraReward(cfg: Config, era: nat): nat {
    cfg.blockReward * Pow2(ERAS - Min(era, ERAS))
  }

  /** The reward of the block at a height. */
  function BlockReward(cfg: Config, height: nat): nat
    requires Valid(cfg)
  {
    EraReward(cfg, height / cfg.interval)
  }

  /** The rewards of all blocks below a height. */
  function Issued(cfg: Config, height: nat): nat
    requires Valid(cfg)
    decreases height
  {
    if height == 0 then 0 else Issued(cfg, height - 1) + BlockReward(cfg, height - 1)
  }

  // ---------------------------------------------------------------------------
  // Eras
  // ---------------------------------------------------------------------------

  lemma {:induction false} NextMultiple(a: nat, b: nat, interval: nat)
    requires a < b
    ensures a * interval + interval <= b * interval
  {
    assert (a + 1) * interval <= b * interval;
  }

  lemma {:induction false} EraOf(interval: nat, era: nat, n: nat)
    requires n < interval
    ensures (era * interval + n) / interval == era
  {
    var h := era * interval + n;
    var q := h / interval;
    assert h == q * interval + h % interval;
    if q < era {
      NextMultiple(q, era, interval);
      assert false;
    } else if q > era {
      NextMultiple(era, q, interval);
      assert false;
    }
  }

  /** Within an era every block adds the same. */
  lemma {:induction false} IssuedFrom(cfg: Config, era: nat, start: nat, n: nat)
    requires Valid(cfg) && n <= cfg.interval && start == era * cfg.interval
    ensures Issued(cfg, start + n) == Issued(cfg, start) + n * EraReward(cfg, era)
    decreases n
  {
    if n > 0 {
      IssuedFrom(cfg, era, start, n - 1);
      EraOf(cfg.interval, era, n - 1);
      assert Issued(cfg, start + n) == Issued(cfg, start + n - 1) + BlockReward(cfg, start + n - 1);
      OneMore(n, EraReward(cfg, era));
    }
  }

  lemma {:induction false} OneMore(n: nat, r: nat)
    requires n > 0
    ensures n * r == (n - 1) * r + r
  {
  }

  lemma {:induction false} IssuedInEra(cfg: Config, era: nat, n: nat)
    requires Valid(cfg) && n <= cfg.interval
    ensures Issued(cfg, era * cfg.interval + n) == Issued(cfg, era * cfg.interval) + n * EraReward(cfg, era)
  {
    IssuedFrom(cfg, era, era * cfg.interval, n);
  }

  lemma {:induction false} NextEra(cfg: Config, era: nat)
    requires Valid(cfg)
    ensures Issued(cfg, (era + 1) * cfg.interval)
         == Issued(cfg, era * cfg.interval) + cfg.interval * EraReward(cfg, era)
  {
    IssuedInEra(cfg, era, cfg.interval);
    assert (era + 1) * cfg.interval == era * cfg.interval + cfg.interval;
  }

  lemma {:induction false} IssuedGrows(cfg: Config, h: nat, h': nat)
    requires Valid(cfg) && h <= h'
    ensures Issued(cfg, h) <= Issued(cfg, h')
    decreases h' - h
  {
    if h < h' { IssuedGrows(cfg, h, h' - 1); }
  }

  lemma {:induction false} Halved(cfg: Config, era: nat)
    requires era < ERAS
    ensures EraReward(cfg, era) == 2 * EraReward(cfg, era + 1)
  {
    assert Pow2(ERAS - era) == 2 * Pow2(ERAS - era - 1);
  }

  // ---------------------------------------------------------------------------
  // The loops
  // ---------------------------------------------------------------------------

  /** What the era loop computes: it stops paying after ten eras, and at the cap. */
  function Mined(cfg: Config, height: nat): nat
    requires Valid(cfg)
  {
    Min(Issued(cfg, Min(height, ERAS * cfg.interval)), MaxMined(cfg))
  }

  lemma {:induction false} Pow2Ten()
    ensures Pow2(10) == UNITS && Pow2(8) == 256
  {
    assert Pow2(4) == 16;
    assert Pow2(6) == 4 * Pow2(4);
    assert Pow2(8) == 4 * Pow2(6);
  }

  /** The state of the era loop after `era` eras: paid for the first `done` blocks. */
  ghost predicate Paid(cfg: Config, height: int, era: nat, done: nat, mined: nat, reward: nat)
    requires Valid(cfg)
  {
    && era <= ERAS && done <= Max(height, 0) && done <= ERAS * cfg.interval
    && (done < height ==> done == era * cfg.interval)
    && reward == EraReward(cfg, era) && mined == Issued(cfg, done)
  }

  lemma {:induction false} PayEra(cfg: Config, height: int, era: nat, done: nat, mined: nat, reward: nat, blocks: nat)
    requires Valid(cfg) && Paid(cfg, height, era, done, mined, reward) && era < ERAS
    requires done < height && blocks == Min(height - done, cfg.interval)
    ensures Paid(cfg, height, era + 1, done + blocks, mined + blocks * reward, reward / 2)
  {
    IssuedFrom(cfg, era, done, blocks);
    Halved(cfg, era);
    NextMultiple(era, ERAS, cfg.interval);
    OneMore(era + 1, cfg.interval);
  }

  lemma {:induction false} PaidStarts(cfg: Config, height: int)
    requires Valid(cfg)
    ensures Paid(cfg, height, 0, 0, 0, cfg.blockReward * UNITS)
  {
    Pow2Ten();
  }

  lemma {:induction false} PaidEnds(cfg: Config, height: int, era: nat, done: nat, mined: nat, reward: nat)
    requires Valid(cfg) && Paid(cfg, height, era, done, mined, reward) && (done >= height || era == ERAS)
    ensures Min(mined, MaxMined(cfg)) == Mined(cfg, Max(height, 0))
  {
    if done < height { assert done == ERAS * cfg.interval; }
  }

  /** The dashboard's supply figure for either network. */
  method CalcMinedSupply(cfg: Config, height: int) returns (supply: nat)
    requires Valid(cfg)
    ensures supply == Mined(cfg, Max(height, 0))
  {
    var mined: nat, reward: nat, remaining, halvings := 0, cfg.blockReward * UNITS, height, 0;
    PaidStarts(cfg, height);
    while remaining > 0 && halvings < ERAS
      invariant 0 <= halvings && remaining <= height && (height <= 0 ==> remaining == height)
      invariant height > 0 ==> remaining >= 0
      invariant Paid(cfg, height, halvings, Max(height - remaining, 0), mined, reward)
      decreases remaining
    {
      var blocksInEra := Min(remaining, cfg.interval);
      PayEra(cfg, height, halvings, height - remaining, mined, reward, blocksInEra);
      mined := mined + blocksInEra * reward;
      remaining := remaining - blocksInEra;
      reward := reward / 2;
      halvings := halvings + 1;
    }
    PaidEnds(cfg, height, halvings, Max(height - remaining, 0), mined, reward);
    return Min(mined, MaxMined(cfg));
  }

  /** The token page's own copy, with the mainnet constants written out. */
  method TokenPageMinedSupply(height: int) returns (supply: nat)
    ensures supply == Mined(MAINNET, Max(height, 0))
  {
    var mined: nat, reward: nat, remaining, halvings := 0, 3 * UNITS, height, 0;
    PaidStarts(MAINNET, height);
    while remaining > 0 && halvings < 10
      invariant 0 <= halvings && remaining <= height && (height <= 0 ==> remaining == height)
      invariant height > 0 ==> remaining >= 0
      invariant Paid(MAINNET, height, halvings, Max(height - remaining, 0), mined, reward)
      decreases remaining
    {
      var blocksInEra := Min(remaining, 25_000_000);
      PayEra(MAINNET, height, halvings, height - remaining, mined, reward, blocksInEra);
      mined := mined + blocksInEra * reward;
      remaining := remaining - blocksInEra;
      reward := reward / 2;
      halvings := halvings + 1;
    }
    PaidEnds(MAINNET, height, halvings, Max(height - remaining, 0), mined, reward);
    return Min(mined, 120_010_000 * UNITS);
  }

  /** The token page's per-block reward. */
  method CurrentBlockReward(height: nat) returns (reward: nat)
    ensures reward == BlockReward(MAINNET, height)
  {
    reward := 3 * UNITS;
    var halvings, i := height / 25_000_000, 0;
    Pow2Ten();
    while i < halvings && i < 10
      invariant 0 <= i <= Min(halvings, 10)
      invariant reward == EraReward(MAINNET, i)
    {
      Halved(MAINNET, i);
      reward := reward / 2;
      i := i + 1;
    }
  }

  // ---------------------------------------------------------------------------
  // The era loop against the per-block sum
  // ---------------------------------------------------------------------------

  ghost predicate Exact(cfg: Config)
    requires Valid(cfg)
  {
    forall h: nat :: Mined(cfg, h) == Min(Issued(cfg, h), MaxMined(cfg))
  }

  /**
   The loop stops after ten eras although blocks keep earning. It agrees with the capped per-block
   sum at every height exactly when the cap is reached within those eras, or nothing is paid.
   */
  lemma {:induction false} ExactIff(cfg: Config)
    requires Valid(cfg)
    ensures Exact(cfg) <==> cfg.blockReward == 0 || MaxMined(cfg) <= Issued(cfg, ERAS * cfg.interval)
  {
    var end := ERAS * cfg.interval;
    if cfg.blockReward == 0 {
      forall h: nat ensures Issued(cfg, h) == 0 { NothingPaid(cfg, h); }
    } else if MaxMined(cfg) <= Issued(cfg, end) {
      forall h: nat ensures Mined(cfg, h) == Min(Issued(cfg, h), MaxMined(cfg)) {
        if h > end { IssuedGrows(cfg, end, h); }
      }
    } else {
      EraOf(cfg.interval, ERAS, 0);
      assert Issued(cfg, end + 1) == Issued(cfg, end) + BlockReward(cfg, end);
      assert BlockReward(cfg, end) == cfg.blockReward * Pow2(0);
      assert Mined(cfg, end + 1) == Issued(cfg, end);
    }
  }

  lemma {:induction false} NothingPaid(cfg: Config, h: nat)
    requires Valid(cfg) && cfg.blockReward == 0
    ensures Issued(cfg, h) == 0
    decreases h
  {
    if h > 0 { NothingPaid(cfg, h - 1); }
  }

  lemma {:induction false} MainnetEras()
    ensures Issued(MAINNET, 25_000_000) == 76_800_000_000
    ensures Issued(MAINNET, 50_000_000) == 115_200_000_000
    ensures Issued(MAINNET, 75_000_000) == 134_400_000_000
    ensures EraReward(MAINNET, 2) == 768
  {
    MainnetRewards();
    FirstEras(MAINNET);
  }

  lemma {:induction false} FirstEras(cfg: Config)
    requires Valid(cfg)
    ensures Issued(cfg, cfg.interval) == cfg.interval * EraReward(cfg, 0)
    ensures Issued(cfg, 2 * cfg.interval) == Issued(cfg, cfg.interval) + cfg.interval * EraReward(cfg, 1)
    ensures Issued(cfg, 3 * cfg.interval) == Issued(cfg, 2 * cfg.interval) + cfg.interval * EraReward(cfg, 2)
  {
    NextEra(cfg, 0);
    NextEra(cfg, 1);
    NextEra(cfg, 2);
  }

  lemma {:induction false} MainnetRewards()
    ensures EraReward(MAINNET, 0) == 3072 && EraReward(MAINNET, 1) == 1536 && EraReward(MAINNET, 2) == 768
  {
    Pow2Ten();
    Halved(MAINNET, 0);
    Halved(MAINNET, 1);
  }

  lemma {:induction false} TestnetEra()
    ensures Issued(TESTNET, 10_000_000) == 51_200_000_000
  {
    Pow2Ten();
    Halved(TESTNET, 0);
    Halved(TESTNET, 1);
    NextEra(TESTNET, 0);
  }

  /** On both networks the loop is the capped per-block sum at every height. */
  lemma {:induction false} BothNetworksExact()
    ensures Exact(MAINNET) && Exact(TESTNET)
  {
    MainnetExact();
    TestnetExact();
  }

  lemma {:induction false} MainnetExact()
    ensures Exact(MAINNET)
  {
    MainnetEras();
    IssuedGrows(MAINNET, 75_000_000, ERAS * MAINNET.interval);
    ExactIff(MAINNET);
  }

  lemma {:induction false} TestnetExact()
    ensures Exact(TESTNET)
  {
    TestnetEra();
    IssuedGrows(TESTNET, 10_000_000, ERAS * TESTNET.interval);
    ExactIff(TESTNET);
  }

  /** Supply never falls, and with what is reserved it never passes the cap. */
  lemma {:induction false} SupplyMonotoneAndCapped(cfg: Config, h: nat, h': nat)
    requires Valid(cfg) && h <= h'
    ensures Mined(cfg, h) <= Mined(cfg, h')
    ensures cfg.reserved * UNITS + Mined(cfg, h') <= cfg.supplyCap * UNITS
  {
    IssuedGrows(cfg, Min(h, ERAS * cfg.interval), Min(h', ERAS * cfg.interval));
    assert MaxMined(cfg) == cfg.supplyCap * UNITS - cfg.reserved * UNITS;
  }

  /** Mainnet mining ends at block 60,013,334: from there on, and not before, all 150 million exist. */
  lemma {:induction false} MainnetExhausted(h: nat)
    ensures MAINNET.reserved * UNITS + Mined(MAINNET, h) == MAINNET.supplyCap * UNITS <==> h >= 60_013_334
  {
    AroundTheEnd();
    if h >= 60_013_334 {
      IssuedGrows(MAINNET, 60_013_334, Min(h, ERAS * MAINNET.interval));
    } else {
      IssuedGrows(MAINNET, h, 60_013_333);
    }
  }

  lemma {:induction false} AroundTheEnd()
    ensures Issued(MAINNET, 60_013_333) < MaxMined(MAINNET) <= Issued(MAINNET, 60_013_334)
  {
    MainnetEras();
    IssuedInEra(MAINNET, 2, 10_013_333);
    IssuedInEra(MAINNET, 2, 10_013_334);
  }
}
