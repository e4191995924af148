/**
 Booting a node on its data directory: building the genesis block and account table from the
 configuration, persisting them on first boot, and checking them on every later one.

 The state root and the block hash are parameters. An address is its 160-bit number.
 */
module Genesis {
  import opened Prelude

  type H256 = nat
  type Address = nat

  const MAINNET_CHAIN_ID: nat := 8989

  datatype Account = Account(balance: nat, nonce: nat)
  type Accounts = map<Address, Account>

  datatype Alloc = Alloc(address: Address, balance: nat, nonce: nat)

  datatype Config = Config(chainId: nat, timestamp: nat, alloc: seq<Alloc>, validators: seq<Address>)

  /** The two header fields a genesis block takes from its configuration. */
  datatype Block = Block(stateRoot: H256, timestamp: nat)

  datatype Crypto = Crypto(root: Accounts -> H256, hash: Block -> H256)

  /** Stored chain-id metadata: eight bytes that hold a number, or something else. */
  datatype Meta = ChainId(id: nat) | Malformed

  datatype Db = Db(genesis: Option<Block>, accounts: Accounts, meta: Option<Meta>)

  datatype Policy = StrictFailFast | AllowMismatch

  datatype Outcome = Created(hash: H256) | Reused(hash: H256) | Refused

  /** The storage call that fails during a boot, if any. */
  datatype Fault = NoFault | ReadGenesis | ReadMeta | PutBlock | PutAccount(k: nat) | PutMeta

  // ---------------------------------------------------------------------------
  // Building
  // ---------------------------------------------------------------------------

  /** The first 18 of the address's 20 bytes are zero. */
  predicate Placeholder(a: Address) {
    a < 0x1_0000
  }

  predicate Clean(cfg: Config) {
    cfg.chainId == MAINNET_CHAIN_ID ==>
      && (forall i | 0 <= i < |cfg.validators| :: !Placeholder(cfg.validators[i]))
      && (forall i | 0 <= i < |cfg.alloc| :: !Placeholder(cfg.alloc[i].address))
  }

  method ValidateNoPlaceholders(cfg: Config) returns (ok: bool)
    ensures ok <==> Clean(cfg)
  {
    if cfg.chainId != MAINNET_CHAIN_ID { return true; }
    for i := 0 to |cfg.validators|
      invariant forall j | 0 <= j < i :: !Placeholder(cfg.validators[j])
    {
      if Placeholder(cfg.validators[i]) { return false; }
    }
    for i := 0 to |cfg.alloc|
      invariant forall j | 0 <= j < i :: !Placeholder(cfg.alloc[j].address)
    {
      if Placeholder(cfg.alloc[i].address) { return false; }
    }
    return true;
  }

  function Entry(a: Alloc): (Address, Account) {
    (a.address, Account(a.balance, a.nonce))
  }

  /** Writing a list of accounts over a table, one by one. */
  function PutAll(accounts: Accounts, list: seq<(Address, Account)>): Accounts
    decreases |list|
  {
    if list == [] then accounts
    else PutAll(accounts, list[..|list| - 1])[list[|list| - 1].0 := list[|list| - 1].1]
  }

  lemma {:induction false} PutNext(accounts: Accounts, list: seq<(Address, Account)>, i: nat)
    requires i < |list|
    ensures PutAll(accounts, list[..i + 1]) == PutAll(accounts, list[..i])[list[i].0 := list[i].1]
  {
    assert list[..i + 1][..i] == list[..i];
  }

  function Entries(alloc: seq<Alloc>): (r: seq<(Address, Account)>)
    ensures |r| == |alloc| && forall i | 0 <= i < |alloc| :: r[i] == Entry(alloc[i])
  {
    seq(|alloc|, i requires 0 <= i < |alloc| => Entry(alloc[i]))
  }

  function GenesisBlock(c: Crypto, cfg: Config): Block {
    Block(c.root(PutAll(map[], Entries(cfg.alloc))), cfg.timestamp)
  }

  method BuildGenesisBlock(c: Crypto, cfg: Config) returns (block: Block, accounts: seq<(Address, Account)>)
    ensures block == GenesisBlock(c, cfg) && accounts == Entries(cfg.alloc)
  {
    accounts := [];
    for i := 0 to |cfg.alloc|
      invariant accounts == Entries(cfg.alloc)[..i]
    {
      accounts := accounts + [Entry(cfg.alloc[i])];
    }
    var table: Accounts := map[];
    for i := 0 to |accounts|
      invariant table == PutAll(map[], accounts[..i])
    {
      PutNext(map[], accounts, i);
      table := table[accounts[i].0 := accounts[i].1];
    }
    assert accounts[..|accounts|] == accounts == Entries(cfg.alloc);
    assert table == PutAll(map[], Entries(cfg.alloc));
    block := Block(c.root(table), cfg.timestamp);
  }

  /** The entry that decides an address: its last one. */
  ghost predicate LastFor(list: seq<(Address, Account)>, a: Address, i: int) {
    0 <= i < |list| && list[i].0 == a && forall j | i < j < |list| :: list[j].0 != a
  }

  /** With duplicate addresses the last allocation wins, and nothing else is in the table. */
  lemma {:induction false} LastAllocationWins(list: seq<(Address, Account)>, a: Address)
    ensures a in PutAll(map[], list) <==> exists i :: LastFor(list, a, i)
    ensures forall i | LastFor(list, a, i) :: PutAll(map[], list)[a] == list[i].1
    decreases |list|
  {
    if list != [] {
      var n := |list| - 1;
      LastAllocationWins(list[..n], a);
      if list[n].0 == a {
        assert LastFor(list, a, n);
      } else {
        assert forall i :: LastFor(list, a, i) <==> LastFor(list[..n], a, i);
      }
    }
  }

  /** The funded account holds the balance and the nonce its last allocation gives it. */
  lemma {:induction false} AllocationHeld(cfg: Config, i: nat)
    requires i < |cfg.alloc| && forall j | i < j < |cfg.alloc| :: cfg.alloc[j].address != cfg.alloc[i].address
    ensures var table := PutAll(map[], Entries(cfg.alloc));
            && cfg.alloc[i].address in table
            && table[cfg.alloc[i].address].balance == cfg.alloc[i].balance
            && table[cfg.alloc[i].address].nonce == cfg.alloc[i].nonce
  {
    LastAllocationWins(Entries(cfg.alloc), cfg.alloc[i].address);
    assert LastFor(Entries(cfg.alloc), cfg.alloc[i].address, i);
  }

  /** Mainnet, chain 8989, refuses addresses whose first 18 bytes are zero; any other chain takes all. */
  lemma {:induction false} CleanIff(cfg: Config)
    ensures Clean(cfg) <==>
            || cfg.chainId != 8989
            || (&& (forall i | 0 <= i < |cfg.validators| :: cfg.validators[i] >= 65_536)
                && (forall i | 0 <= i < |cfg.alloc| :: cfg.alloc[i].address >= 65_536))
  {
  }

  // ---------------------------------------------------------------------------
  // Booting
  // ---------------------------------------------------------------------------

  /** First boot: block, then accounts, then chain id. */
  function Fresh(c: Crypto, db: Db, cfg: Config, f: Fault): (Db, Outcome) {
    var b, list := GenesisBlock(c, cfg), Entries(cfg.alloc);
    if f.PutBlock? then (db, Refused)
    else if f.PutAccount? && f.k < |list| then (Db(Some(b), PutAll(db.accounts, list[..f.k]), db.meta), Refused)
    else if f.PutMeta? then (Db(Some(b), PutAll(db.accounts, list), db.meta), Refused)
    else (Db(Some(b), PutAll(db.accounts, list), Some(ChainId(cfg.chainId))), Created(c.hash(b)))
  }

  /** Later boots: compare the hash, then the chain id; only a missing chain id is written. */
  function Reopen(c: Crypto, db: Db, cfg: Config, policy: Policy, f: Fault): (Db, Outcome)
    requires db.genesis.Some?
  {
    var h := c.hash(db.genesis.value);
    if h != c.hash(GenesisBlock(c, cfg)) && policy.StrictFailFast? then (db, Refused)
    else if f.ReadMeta? then (db, Refused)
    else match db.meta
      case Some(ChainId(id)) => if id != cfg.chainId && policy.StrictFailFast? then (db, Refused) else (db, Reused(h))
      case Some(Malformed) => (db, Reused(h))
      case None => if f.PutMeta? then (db, Refused) else (db.(meta := Some(ChainId(cfg.chainId))), Reused(h))
  }

  function Boot(c: Crypto, db: Db, cfg: Config, policy: Policy, f: Fault): (Db, Outcome) {
    if policy.StrictFailFast? && !Clean(cfg) then (db, Refused)
    else if f.ReadGenesis? then (db, Refused)
    else if db.genesis.Some? then Reopen(c, db, cfg, policy, f)
    else Fresh(c, db, cfg, f)
  }

  class Storage {
    var genesis: Option<Block>
    var accounts: Accounts
    var meta: Option<Meta>

    constructor ()
      ensures View() == Db(None, map[], None)
    {
      genesis, accounts, meta := None, map[], None;
    }

    function View(): Db
      reads this
    {
      Db(genesis, accounts, meta)
    }

    method PutAccounts(list: seq<(Address, Account)>, f: Fault) returns (ok: bool)
      modifies this`accounts
      ensures ok <==> !(f.PutAccount? && f.k < |list|)
      ensures accounts == PutAll(old(accounts), if ok then list else list[..f.k])
    {
      for i := 0 to |list|
        invariant accounts == PutAll(old(accounts), list[..i])
        invariant f.PutAccount? ==> i <= f.k
      {
        if f == PutAccount(i) { return false; }
        PutNext(old(accounts), list, i);
        accounts := accounts[list[i].0 := list[i].1];
      }
      assert list[..|list|] == list;
      return true;
    }

    method CheckExisting(c: Crypto, cfg: Config, policy: Policy, f: Fault) returns (r: Outcome)
      requires genesis.Some?
      modifies this`meta
      ensures (View(), r) == Reopen(c, old(View()), cfg, policy, f)
    {
      var existingHash := c.hash(genesis.value);
      var computed, _ := BuildGenesisBlock(c, cfg);
      if existingHash != c.hash(computed) {
        if policy.StrictFailFast? { return Refused; }
      }
      if f.ReadMeta? { return Refused; }
      if meta.Some? {
        var stored := meta.value;
        if stored.ChainId? && stored.id != cfg.chainId && policy.StrictFailFast? { return Refused; }
      } else {
        if f.PutMeta? { return Refused; }
        meta := Some(ChainId(cfg.chainId));
      }
      return Reused(existingHash);
    }

    method BootstrapInto(c: Crypto, cfg: Config, policy: Policy, f: Fault) returns (r: Outcome)
      modifies this
      ensures (View(), r) == Boot(c, old(View()), cfg, policy, f)
    {
      var clean := ValidateNoPlaceholders(cfg);
      if policy.StrictFailFast? && !clean { return Refused; }
      if f.ReadGenesis? { return Refused; }
      if genesis.Some? {
        r := CheckExisting(c, cfg, policy, f);
        return;
      }
      var block, list := BuildGenesisBlock(c, cfg);
      if f.PutBlock? { return Refused; }
      genesis := Some(block);
      var ok := PutAccounts(list, f);
      if !ok { return Refused; }
      if f.PutMeta? { return Refused; }
      meta := Some(ChainId(cfg.chainId));
      return Created(c.hash(block));
    }
  }

  // ---------------------------------------------------------------------------
  // Identity over the life of a data directory
  // ---------------------------------------------------------------------------

  /** A boot, or the node at work between boots, which only changes accounts. */
  datatype Event = Start(cfg: Config, policy: Policy, fault: Fault) | Work(accounts: Accounts)

  function Step(c: Crypto, db: Db, e: Event): Db {
    match e
    case Start(cfg, policy, f) => Boot(c, db, cfg, policy, f).0
    case Work(accounts) => if db.genesis.Some? then db.(accounts := accounts) else db
  }

  function Life(c: Crypto, db: Db, es: seq<Event>): Db
    decreases |es|
  {
    if es == [] then db else Step(c, Life(c, db, es[..|es| - 1]), es[|es| - 1])
  }

  /** Whatever was stored about the chain's identity is still there. */
  ghost predicate Keeps(db: Db, db': Db) {
    db'.genesis == db.genesis && (db.meta.Some? ==> db'.meta == db.meta)
  }

  /** Write-once: no boot, under any configuration, policy or fault, changes a stored genesis or chain id. */
  lemma {:induction false} IdentityWriteOnce(c: Crypto, db: Db, es: seq<Event>)
    requires db.genesis.Some?
    ensures Keeps(db, Life(c, db, es))
    decreases |es|
  {
    if es != [] { IdentityWriteOnce(c, db, es[..|es| - 1]); }
  }

  /** A first boot writes the block, then the accounts in order, then the chain id, and stops where a call fails. */
  lemma {:induction false} FirstBootByFault(c: Crypto, db: Db, cfg: Config, policy: Policy, f: Fault)
    requires db.genesis.None? && (policy == StrictFailFast ==> Clean(cfg))
    ensures var (db', r) := Boot(c, db, cfg, policy, f);
            var b := Block(c.root(PutAll(map[], Entries(cfg.alloc))), cfg.timestamp);
            var all := PutAll(db.accounts, Entries(cfg.alloc));
            match f
            case ReadGenesis => db' == db && r == Refused
            case PutBlock => db' == db && r == Refused
            case PutAccount(k) =>
              if k < |cfg.alloc|
              then db' == Db(Some(b), PutAll(db.accounts, Entries(cfg.alloc)[..k]), db.meta) && r == Refused
              else db' == Db(Some(b), all, Some(ChainId(cfg.chainId))) && r == Created(c.hash(b))
            case PutMeta => db' == Db(Some(b), all, db.meta) && r == Refused
            case _ => db' == Db(Some(b), all, Some(ChainId(cfg.chainId))) && r == Created(c.hash(b))
  {
  }

  /** A lenient boot on existing data reports the stored hash whatever is asked for, unless a storage call fails. */
  lemma {:induction false} LenientBoot(c: Crypto, db: Db, cfg: Config, f: Fault)
    requires db.genesis.Some?
    ensures var (db', r) := Boot(c, db, cfg, AllowMismatch, f);
            if f == ReadGenesis || f == ReadMeta || (f == PutMeta && db.meta == None) then db' == db && r == Refused
            else
              && r == Reused(c.hash(db.genesis.value))
              && db' == if db.meta == None then db.(meta := Some(ChainId(cfg.chainId))) else db
  {
  }

  /** A strict boot refuses an unclean configuration before it looks at anything. */
  lemma {:induction false} UncleanRefused(c: Crypto, db: Db, cfg: Config, f: Fault)
    requires !Clean(cfg)
    ensures Boot(c, db, cfg, StrictFailFast, f) == (db, Refused)
  {
  }

  /** A strict boot on a data directory succeeds exactly when nothing that is stored contradicts the configuration. */
  lemma {:induction false} StrictBootIff(c: Crypto, db: Db, cfg: Config)
    requires db.genesis.Some?
    ensures Boot(c, db, cfg, StrictFailFast, NoFault).1.Reused? <==>
            && Clean(cfg) && c.hash(db.genesis.value) == c.hash(GenesisBlock(c, cfg))
            && (db.meta.Some? && db.meta.value.ChainId? ==> db.meta.value.id == cfg.chainId)
  {
  }

  /**
   Once a boot has succeeded, every later successful strict boot, after whatever other boots, asks for
   the same chain id and reports the same genesis hash.
   */
  lemma {:induction false} LaterStrictBootsAgree(c: Crypto, db: Db, first: Config, policy: Policy, es: seq<Event>,
                                                 later: Config, f: Fault)
    requires db.meta.None? && !Boot(c, db, first, policy, NoFault).1.Refused?
    requires var now := Life(c, Boot(c, db, first, policy, NoFault).0, es);
             !Boot(c, now, later, StrictFailFast, f).1.Refused?
    ensures var now := Life(c, Boot(c, db, first, policy, NoFault).0, es);
            && later.chainId == first.chainId
            && Boot(c, now, later, StrictFailFast, f).1.hash == Boot(c, db, first, policy, NoFault).1.hash
  {
    IdentityWriteOnce(c, Boot(c, db, first, policy, NoFault).0, es);
  }

  // ---------------------------------------------------------------------------
  // The account table
  // ---------------------------------------------------------------------------

  /** A completed first boot stores exactly the table whose root is in the stored header. */
  lemma {:induction false} AccountsMatchHeader(c: Crypto, cfg: Config, policy: Policy, f: Fault)
    requires Boot(c, Db(None, map[], None), cfg, policy, f).1.Created?
    ensures var db := Boot(c, Db(None, map[], None), cfg, policy, f).0;
            && db.accounts == PutAll(map[], Entries(cfg.alloc))
            && db.genesis == Some(Block(c.root(db.accounts), cfg.timestamp))
  {
  }

  lemma {:induction false} SomeLast(list: seq<(Address, Account)>, j: nat) returns (i: nat)
    requires j < |list|
    ensures j <= i && LastFor(list, list[j].0, i)
    decreases |list| - j
  {
    if k :| j < k < |list| && list[k].0 == list[j].0 { i := SomeLast(list, k); } else { i := j; }
  }

  /** Each address's last entry says what its last entry before the cut already said. */
  ghost predicate CutHarmless(list: seq<(Address, Account)>, k: nat)
    requires k <= |list|
  {
    forall i | k <= i < |list| && LastFor(list, list[i].0, i) ::
      exists j :: LastFor(list[..k], list[i].0, j) && list[j].1 == list[i].1
  }

  /** One address: the cut table and the whole one agree on it. */
  ghost predicate AgreeOn(list: seq<(Address, Account)>, k: nat, a: Address)
    requires k <= |list|
  {
    var t, u := PutAll(map[], list[..k]), PutAll(map[], list);
    (a in t <==> a in u) && (a in t && a in u ==> t[a] == u[a])
  }

  lemma {:induction false} HarmlessAgrees(list: seq<(Address, Account)>, k: nat, a: Address)
    requires k <= |list| && CutHarmless(list, k)
    ensures AgreeOn(list, k, a)
  {
    LastAllocationWins(list, a);
    LastAllocationWins(list[..k], a);
    if a in PutAll(map[], list[..k]) || a in PutAll(map[], list) {
      var x: int;
      if a in PutAll(map[], list) {
        x :| LastFor(list, a, x);
      } else {
        var j :| LastFor(list[..k], a, j);
        x := SomeLast(list, j);
      }
      if x < k { assert LastFor(list[..k], a, x); }
    }
  }

  /** Stopping the account writes at `k` leaves the whole table exactly when the cut is harmless. */
  lemma {:induction false} CutTableIff(list: seq<(Address, Account)>, k: nat)
    requires k <= |list|
    ensures PutAll(map[], list[..k]) == PutAll(map[], list) <==> CutHarmless(list, k)
  {
    var t, u := PutAll(map[], list[..k]), PutAll(map[], list);
    if t == u {
      forall i | k <= i < |list| && LastFor(list, list[i].0, i)
        ensures exists j :: LastFor(list[..k], list[i].0, j) && list[j].1 == list[i].1
      {
        LastAllocationWins(list, list[i].0);
        LastAllocationWins(list[..k], list[i].0);
        var j :| LastFor(list[..k], list[i].0, j);
        assert t[list[i].0] == list[..k][j].1;
      }
    }
    if CutHarmless(list, k) {
      forall a ensures AgreeOn(list, k, a) { HarmlessAgrees(list, k, a); }
      assert t.Keys == u.Keys by { assert forall a :: AgreeOn(list, k, a) ==> (a in t <==> a in u); }
      assert forall a | a in t :: AgreeOn(list, k, a);
    }
  }

  /**
   The block goes to disk before the accounts, and a later boot finds the block and asks no more. So
   after a first boot with any failure and a good second one, the table is the one whose root is in the
   header exactly when no account write failed or what it cut off was harmless.
   */
  lemma {:induction false} SecondBootCompleteIff(c: Crypto, cfg: Config, policy: Policy, f: Fault)
    requires policy.StrictFailFast? ==> Clean(cfg)
    ensures var db1 := Boot(c, Db(None, map[], None), cfg, policy, f).0;
            var second := Boot(c, db1, cfg, policy, NoFault);
            && !second.1.Refused?
            && (second.0.accounts == PutAll(map[], Entries(cfg.alloc)) <==>
                (f.PutAccount? && f.k < |cfg.alloc| ==> CutHarmless(Entries(cfg.alloc), f.k)))
  {
    if f.PutAccount? && f.k < |cfg.alloc| { CutTableIff(Entries(cfg.alloc), f.k); }
  }

  /** One funded account, lost when its write fails: the next strict boot reports success on an empty table. */
  lemma {:induction false} FundedAccountLost(c: Crypto, chainId: nat)
    requires chainId != MAINNET_CHAIN_ID
    ensures var cfg := Config(chainId, 0, [Alloc(7, 100, 0)], []);
            var db1 := Boot(c, Db(None, map[], None), cfg, StrictFailFast, PutAccount(0)).0;
            var second := Boot(c, db1, cfg, StrictFailFast, NoFault);
            second.1.Reused? && second.0.accounts == map[]
  {
    var cfg := Config(chainId, 0, [Alloc(7, 100, 0)], []);
    assert Entries(cfg.alloc)[..0] == [];
  }
}
