/** The per-DEX hop builders (src/dex_swap.rs) and what their commands do when executed. */
module DexSwap {
  import opened Models
  import opened Text
  import opened Ptb

  const U64_MAX: nat := 0xffff_ffff_ffff_ffff
  const CETUS_GLOBAL_CONFIG: string := "0xdaa46292632c3c4d8f31f23ea0f9b36a28ff3677e9684980e4438403a67a3d8f"
  const MAGMA_GLOBAL_CONFIG: string := "0x4c4e1402401f72c7d8533d0ed8d5f8949da363c7a3319ccef261ffe153d32f8a"
  const MOMENTUM_VERSION_OBJECT: string := "0x2375a0b1ec12010aaea3b2545acfa2ad34cfbba03ce4b59f4c39e1e25eed1b2a"
  const TURBOS_VERSIONED: string := "0xf1cf0e81048df168ebeb1b8030fad24b3e0b53ae827c25053fff0779c1445b6f"
  const TURBOS_DISCOVERY_PACKAGE: string := "0x91bfbc386a41afcfd9b2533058d7e915a1d3829089cc268ff4333d54d6339ca1"
  const SUI_CLOCK: string := "0x6"
  const TURBOS_DEADLINE_MS: nat := 9_999_999_999_999

  datatype DexSwapKind = Cetus | Turbos | Magma | MomentumDex | Unsupported

  function DexKind(dexName: string): DexSwapKind {
    var lower := Lower(dexName);
    if Contains(lower, "cetus") then Cetus
    else if Contains(lower, "turbos") then Turbos
    else if Contains(lower, "magma") then Magma
    else if lower == "momentum" || Contains(lower, "momentum") then MomentumDex
    else Unsupported
  }

  /** The two errors of the builders, and the panic of an amount that does not fit 64 bits. */
  datatype BuildError = UnsupportedDex(name: string) | UnsupportedTurbosFee(fee: nat) | AmountPanic

  function TurbosFeeTypeArg(feeRate: nat): Option<string> {
    if feeRate == 100 then Some(TURBOS_DISCOVERY_PACKAGE + "::fee100bps::FEE100BPS")
    else if feeRate == 500 then Some(TURBOS_DISCOVERY_PACKAGE + "::fee500bps::FEE500BPS")
    else if feeRate == 3000 then Some(TURBOS_DISCOVERY_PACKAGE + "::fee3000bps::FEE3000BPS")
    else if feeRate == 10000 then Some(TURBOS_DISCOVERY_PACKAGE + "::fee10000bps::FEE10000BPS")
    else None
  }

  type Built = (seq<PtbCommand>, Option<PtbArgument>)

  function InType(pool: PoolState, aToB: bool): Token {
    if aToB then pool.coinTypeA else pool.coinTypeB
  }

  function OutType(pool: PoolState, aToB: bool): Token {
    if aToB then pool.coinTypeB else pool.coinTypeA
  }

  /** The five commands after the flash swap of any of the three flash-swap DEXes. */
  function SettleCommands(pool: PoolState, coin: PtbArgument, aToB: bool, start: nat, repay: PtbCommand)
    : seq<PtbCommand>
  {
    var (outBalance, unusedBalance) :=
      if aToB then (NestedResult(start, 1), NestedResult(start, 0))
      else (NestedResult(start, 0), NestedResult(start, 1));
    [ MoveCall(CoinIntoBalance, [InType(pool, aToB)], [coin]),
      MoveCall(BalanceZero, [OutType(pool, aToB)], []),
      repay,
      MoveCall(BalanceDestroyZero, [InType(pool, aToB)], [unusedBalance]),
      MoveCall(CoinFromBalance, [OutType(pool, aToB)], [outBalance])
    ]
  }

  /** The balances handed to the repayment: the paid one on the input side, the zero one on the other. */
  function RepayBalances(aToB: bool, start: nat): (PtbArgument, PtbArgument) {
    if aToB then (Result(start + 1), Result(start + 2)) else (Result(start + 2), Result(start + 1))
  }

  function BuildConfigPoolFlashHop(
    package: ClmmPackage, globalConfig: string, pool: PoolState, coin: PtbArgument, aToB: bool,
    expectedAmount: nat, sqrtPriceLimit: nat, start: nat): (seq<PtbCommand>, PtbArgument)
  {
    var types := [pool.coinTypeA, pool.coinTypeB];
    var flashSwap := MoveCall(ClmmFlashSwap(package), types,
      [Object(globalConfig), Object(pool.poolId), Bool(aToB), Bool(true), U64(expectedAmount),
       U128(sqrtPriceLimit), Object(SUI_CLOCK)]);
    var (balanceA, balanceB) := RepayBalances(aToB, start);
    var repay := MoveCall(ClmmRepayFlashSwap(package), types,
      [Object(globalConfig), Object(pool.poolId), balanceA, balanceB, NestedResult(start, 2)]);
    ([flashSwap] + SettleCommands(pool, coin, aToB, start, repay), Result(start + 5))
  }

  function BuildMomentumFlashHop(
    pool: PoolState, coin: PtbArgument, aToB: bool, expectedAmount: nat, sqrtPriceLimit: nat, start: nat)
    : (seq<PtbCommand>, PtbArgument)
  {
    var types := [pool.coinTypeA, pool.coinTypeB];
    var flashSwap := MoveCall(MomentumFlashSwap, types,
      [Object(pool.poolId), Bool(aToB), Bool(true), U64(expectedAmount), U128(sqrtPriceLimit),
       Object(SUI_CLOCK), Object(MOMENTUM_VERSION_OBJECT)]);
    var (balanceX, balanceY) := RepayBalances(aToB, start);
    var repay := MoveCall(MomentumRepayFlashSwap, types,
      [Object(pool.poolId), NestedResult(start, 2), balanceX, balanceY, Object(MOMENTUM_VERSION_OBJECT)]);
    ([flashSwap] + SettleCommands(pool, coin, aToB, start, repay), Result(start + 5))
  }

  function BuildTurbosHop(
    pool: PoolState, coin: PtbArgument, aToB: bool, expectedAmount: nat, hopMinOut: nat,
    sqrtPriceLimit: nat, start: nat, recipient: string): Models.Result<Built, BuildError>
  {
    match TurbosFeeTypeArg(pool.feeRate)
    case None => Err(UnsupportedTurbosFee(pool.feeRate))
    case Some(feeType) =>
      if expectedAmount > U64_MAX || hopMinOut > U64_MAX then Err(AmountPanic)
      else
        var makeVec := MakeMoveVec(Some(CoinTag(InType(pool, aToB))), [coin]);
        var swap := MoveCall(if aToB then TurbosSwapAB else TurbosSwapBA,
          [pool.coinTypeA, pool.coinTypeB, feeType],
          [Object(pool.poolId), Result(start), U64(expectedAmount), U64(hopMinOut), U128(sqrtPriceLimit),
           Bool(true), Address(recipient), U64(TURBOS_DEADLINE_MS), Object(SUI_CLOCK), Object(TURBOS_VERSIONED)]);
        var transferLeftover := TransferObjects([NestedResult(start + 1, 1)], Address(recipient));
        Ok(([makeVec, swap, transferLeftover], Some(NestedResult(start + 1, 0))))
  }

  function BuildHopCommands(
    pool: PoolState, hop: SwapHop, coin: PtbArgument, expectedAmount: nat, hopMinOut: nat,
    sqrtPriceLimit: nat, start: nat, recipient: string): Models.Result<Built, BuildError>
  {
    var aToB := hop.inputToken == pool.coinTypeA;
    match DexKind(pool.dexName)
    case Cetus => FlashBuilt(expectedAmount,
      BuildConfigPoolFlashHop(
        CetusPackage, CETUS_GLOBAL_CONFIG, pool, coin, aToB, expectedAmount, sqrtPriceLimit, start))
    case Turbos => BuildTurbosHop(pool, coin, aToB, expectedAmount, hopMinOut, sqrtPriceLimit, start, recipient)
    case Magma => FlashBuilt(expectedAmount,
      BuildConfigPoolFlashHop(
        MagmaPackage, MAGMA_GLOBAL_CONFIG, pool, coin, aToB, expectedAmount, sqrtPriceLimit, start))
    case MomentumDex => FlashBuilt(expectedAmount,
      BuildMomentumFlashHop(pool, coin, aToB, expectedAmount, sqrtPriceLimit, start))
    case Unsupported => Err(UnsupportedDex(pool.dexName))
  }

  /** `amount_u64` panics above 64 bits. */
  function FlashBuilt(expectedAmount: nat, built: (seq<PtbCommand>, PtbArgument)): Models.Result<Built, BuildError> {
    if expectedAmount > U64_MAX then Err(AmountPanic) else Ok((built.0, Some(built.1)))
  }

  // ----- what a hop does

  /** The pool is the one on chain under its id, and the hop uses it in direction `aToB`. */
  predicate OnChain(chain: Chain, pool: PoolState) {
    pool.poolId in chain.pools && chain.pools[pool.poolId] == pool
  }

  /** `coin` names slot `s`, which holds a coin of type `t`. */
  predicate HoldsCoin(m: Machine, coin: PtbArgument, s: Slot, t: Token) {
    Locate(m.slots, coin) == Some(s) && At(m.slots, s) == Some(Coin(t))
  }

  /** Looking an argument up among rows appended to `base`, and clearing what it names. */
  lemma RowAccess(base: Results, rows: Results, k: nat, j: nat)
    requires k < |rows| && j < |rows[k]|
    ensures Locate(base + rows, NestedResult(|base| + k, j)) == Some(Slot(|base| + k, j))
    ensures |rows[k]| == 1 ==> Locate(base + rows, Result(|base| + k)) == Some(Slot(|base| + k, 0))
    ensures At(base + rows, Slot(|base| + k, j)) == rows[k][j]
    ensures Clear(base + rows, Slot(|base| + k, j)) == base + rows[k := rows[k][j := None]]
  {
  }

  /** Rows appended later do not disturb what an argument names. */
  lemma BaseAccess(base: Results, rows: Results, arg: PtbArgument, s: Slot)
    requires Locate(base, arg) == Some(s)
    ensures Locate(base + rows, arg) == Some(s) && At(base + rows, s) == At(base, s)
    ensures Clear(base + rows, s) == Clear(base, s) + rows
  {
  }

  /** The rows a flash hop leaves behind: everything consumed but the coin it bought. */
  function FlashRows(out: Token): Results {
    [[None, None, None], [None], [None], [], [], [Some(Coin(out))]]
  }

  /** The rows of a Turbos hop: vector consumed, bought coin left, leftover transferred. */
  function TurbosRows(out: Token): Results {
    [[None], [Some(Coin(out)), None], []]
  }

  lemma Produces(m: Machine, base: Results, rows: Results, results: seq<Resource>, row: seq<Option<Resource>>)
    requires m.slots == base + rows
    requires |row| == |results| && forall i :: 0 <= i < |row| ==> row[i] == Some(results[i])
    ensures Produce(m, results) == m.(slots := base + (rows + [row]))
  {
    assert seq(|results|, i requires 0 <= i < |results| => Some(results[i])) == row;
  }

  /** Taking the resource an argument names among the appended rows. */
  lemma TakeFromRows(m: Machine, base: Results, rows: Results, arg: PtbArgument, k: nat, j: nat)
    requires m.slots == base + rows && k < |rows| && j < |rows[k]|
    requires arg == NestedResult(|base| + k, j) || (arg == Result(|base| + k) && |rows[k]| == 1 && j == 0)
    ensures Take(m, arg) == (rows[k][j], m.(slots := base + rows[k := rows[k][j := None]]))
  {
    RowAccess(base, rows, k, j);
  }

  /** `into_balance` on the held coin. */
  lemma IntoBalanceRuns(chain: Chain, m: Machine, base: Results, rows: Results, coin: PtbArgument, s: Slot, t: Token)
    requires m.slots == base + rows && Locate(base, coin) == Some(s) && At(base, s) == Some(Coin(t))
    ensures Step(chain, m, MoveCall(CoinIntoBalance, [t], [coin]))
            == Some(m.(slots := Clear(base, s) + (rows + [[Some(Balance(t, false))]])))
  {
    BaseAccess(base, rows, coin, s);
    var m' := m.(slots := Clear(base, s) + rows);
    assert Take(m, coin) == (Some(Coin(t)), m');
    Produces(m', Clear(base, s), rows, [Balance(t, false)], [Some(Balance(t, false))]);
  }

  lemma ZeroRuns(chain: Chain, m: Machine, base: Results, rows: Results, t: Token)
    requires m.slots == base + rows
    ensures Step(chain, m, MoveCall(BalanceZero, [t], []))
            == Some(m.(slots := base + (rows + [[Some(Balance(t, true))]])))
  {
    Produces(m, base, rows, [Balance(t, true)], [Some(Balance(t, true))]);
  }

  lemma DestroyZeroRuns(chain: Chain, m: Machine, base: Results, rows: Results, k: nat, j: nat, t: Token)
    requires m.slots == base + rows && k < |rows| && j < |rows[k]| && rows[k][j] == Some(Balance(t, true))
    ensures Step(chain, m, MoveCall(BalanceDestroyZero, [t], [NestedResult(|base| + k, j)]))
            == Some(m.(slots := base + (rows[k := rows[k][j := None]] + [[]])))
  {
    var rows' := rows[k := rows[k][j := None]];
    TakeFromRows(m, base, rows, NestedResult(|base| + k, j), k, j);
    Produces(m.(slots := base + rows'), base, rows', [], []);
  }

  lemma FromBalanceRuns(chain: Chain, m: Machine, base: Results, rows: Results, k: nat, j: nat, t: Token)
    requires m.slots == base + rows && k < |rows| && j < |rows[k]| && rows[k][j] == Some(Balance(t, false))
    ensures Step(chain, m, MoveCall(CoinFromBalance, [t], [NestedResult(|base| + k, j)]))
            == Some(m.(slots := base + (rows[k := rows[k][j := None]] + [[Some(Coin(t))]])))
  {
    var rows' := rows[k := rows[k][j := None]];
    TakeFromRows(m, base, rows, NestedResult(|base| + k, j), k, j);
    Produces(m.(slots := base + rows'), base, rows', [Coin(t)], [Some(Coin(t))]);
  }

  /** Repaying out of three appended rows: the borrowed row, the paid balance and the zero balance. */
  lemma RepayRuns(m: Machine, base: Results, lender: Lender, pool: PoolState, aToB: bool)
    requires var n := |base|;
      m.slots == base + LentRows(lender, pool, aToB, n)
    ensures var n := |base|;
      var (balanceA, balanceB) := RepayBalances(aToB, n);
      Repay(m, lender, pool.poolId, pool.coinTypeA, pool.coinTypeB, balanceA, balanceB, NestedResult(n, 2))
      == Some(m.(slots := base + RepaidRows(pool, aToB), repaid := m.repaid[n := n + 3]))
  {
    var n := |base|;
    var rows0 := LentRows(lender, pool, aToB, n);
    var (ka, kb) := if aToB then (1, 2) else (2, 1);
    var (balanceA, balanceB) := RepayBalances(aToB, n);
    TakeFromRows(m, base, rows0, balanceA, ka, 0);
    assert rows0[ka][0 := None] == [None];
    var rows1 := rows0[ka := [None]];
    var m1 := m.(slots := base + rows1);
    assert Take(m, balanceA) == (rows0[ka][0], m1);
    TakeFromRows(m1, base, rows1, balanceB, kb, 0);
    assert rows1[kb][0 := None] == [None];
    var rows2 := rows1[kb := [None]];
    var m2 := m1.(slots := base + rows2);
    assert Take(m1, balanceB) == (rows0[kb][0], m2);
    TakeFromRows(m2, base, rows2, NestedResult(n, 2), 0, 2);
    var rows3 := rows2[0 := rows2[0][2 := None]];
    var m3 := m2.(slots := base + rows3);
    assert Take(m2, NestedResult(n, 2)) == (rows0[0][2], m3);
    var paid := m3.(repaid := m3.repaid[n := n + 3]);
    Produces(paid, base, rows3, [], []);
    var done := RepaidRows(pool, aToB);
    assert rows3[0] == done[0] && rows3[1] == done[1] && rows3[2] == done[2];
    assert rows3 + [[]] == done;
  }

  /** The rows before repayment, when the flash swap was command `n`. */
  function LentRows(lender: Lender, pool: PoolState, aToB: bool, n: nat): Results {
    [ [Some(Balance(pool.coinTypeA, aToB)), Some(Balance(pool.coinTypeB, !aToB)),
       Some(Receipt(lender, pool.poolId, aToB, n))],
      [Some(Balance(InType(pool, aToB), false))],
      [Some(Balance(OutType(pool, aToB), true))] ]
  }

  /** The rows after repayment: the borrowed balances are all that is left. */
  function RepaidRows(pool: PoolState, aToB: bool): Results {
    [ [Some(Balance(pool.coinTypeA, aToB)), Some(Balance(pool.coinTypeB, !aToB)), None], [None], [None], [] ]
  }

  /** The commands after the flash swap settle it completely. */
  lemma SettleRuns(
    chain: Chain, m: Machine, base: Results, lender: Lender, pool: PoolState, coin: PtbArgument, s: Slot,
    aToB: bool, repay: PtbCommand)
    requires Locate(base, coin) == Some(s) && At(base, s) == Some(Coin(InType(pool, aToB)))
    requires m.slots == base + [LentRows(lender, pool, aToB, |base|)[0]]
    requires var (balanceA, balanceB) := RepayBalances(aToB, |base|);
      forall x :: Step(chain, x, repay) == Repay(x, lender, pool.poolId, pool.coinTypeA, pool.coinTypeB,
                                                 balanceA, balanceB, NestedResult(|base|, 2))
    ensures Exec(chain, m, SettleCommands(pool, coin, aToB, |base|, repay))
            == Some(m.(slots := Clear(base, s) + FlashRows(OutType(pool, aToB)),
                       repaid := m.repaid[|base| := |base| + 3]))
  {
    var cmds := SettleCommands(pool, coin, aToB, |base|, repay);
    var m1, m2 := FundRuns(chain, m, base, lender, pool, coin, s, aToB);
    var m3 := RepayStep(chain, m2, Clear(base, s), lender, pool, aToB, repay);
    var m4, m5 := CollectRuns(chain, m3, Clear(base, s), pool, aToB);
    ExecFive(chain, m, m1, m2, m3, m4, m5, cmds[0], cmds[1], repay, cmds[3], cmds[4]);
    assert cmds == [cmds[0], cmds[1], repay, cmds[3], cmds[4]];
  }

  /** The repayment as a step. */
  lemma RepayStep(
    chain: Chain, m: Machine, base: Results, lender: Lender, pool: PoolState, aToB: bool, repay: PtbCommand)
    returns (m': Machine)
    requires m.slots == base + LentRows(lender, pool, aToB, |base|)
    requires var (balanceA, balanceB) := RepayBalances(aToB, |base|);
      Step(chain, m, repay) == Repay(m, lender, pool.poolId, pool.coinTypeA, pool.coinTypeB,
                                     balanceA, balanceB, NestedResult(|base|, 2))
    ensures Step(chain, m, repay) == Some(m')
    ensures m' == m.(slots := base + RepaidRows(pool, aToB), repaid := m.repaid[|base| := |base| + 3])
  {
    RepayRuns(m, base, lender, pool, aToB);
    m' := m.(slots := base + RepaidRows(pool, aToB), repaid := m.repaid[|base| := |base| + 3]);
  }

  /** The paid balance and the zero balance are made. */
  lemma FundRuns(
    chain: Chain, m: Machine, base: Results, lender: Lender, pool: PoolState, coin: PtbArgument, s: Slot, aToB: bool)
    returns (m1: Machine, m2: Machine)
    requires Locate(base, coin) == Some(s) && At(base, s) == Some(Coin(InType(pool, aToB)))
    requires m.slots == base + [LentRows(lender, pool, aToB, |base|)[0]]
    ensures Step(chain, m, MoveCall(CoinIntoBalance, [InType(pool, aToB)], [coin])) == Some(m1)
    ensures Step(chain, m1, MoveCall(BalanceZero, [OutType(pool, aToB)], [])) == Some(m2)
    ensures m2 == m.(slots := Clear(base, s) + LentRows(lender, pool, aToB, |base|))
  {
    var lent := LentRows(lender, pool, aToB, |base|);
    var tIn, tOut, base' := InType(pool, aToB), OutType(pool, aToB), Clear(base, s);
    IntoBalanceRuns(chain, m, base, [lent[0]], coin, s, tIn);
    var rows := [lent[0]] + [[Some(Balance(tIn, false))]];
    m1 := m.(slots := base' + rows);
    ZeroRuns(chain, m1, base', rows, tOut);
    assert rows + [[Some(Balance(tOut, true))]] == lent;
    m2 := m.(slots := base' + lent);
  }

  /** The unused balance is destroyed and the bought one becomes a coin. */
  lemma CollectRuns(chain: Chain, m: Machine, base: Results, pool: PoolState, aToB: bool)
    returns (m1: Machine, m2: Machine)
    requires m.slots == base + RepaidRows(pool, aToB)
    ensures var (unused, bought) := if aToB then (0, 1) else (1, 0);
      && Step(chain, m, MoveCall(BalanceDestroyZero, [InType(pool, aToB)], [NestedResult(|base|, unused)])) == Some(m1)
      && Step(chain, m1, MoveCall(CoinFromBalance, [OutType(pool, aToB)], [NestedResult(|base|, bought)])) == Some(m2)
    ensures m2 == m.(slots := base + FlashRows(OutType(pool, aToB)))
  {
    var tIn, tOut, rows := InType(pool, aToB), OutType(pool, aToB), RepaidRows(pool, aToB);
    var (unused, bought) := if aToB then (0, 1) else (1, 0);
    DestroyZeroRuns(chain, m, base, rows, 0, unused, tIn);
    var rows1 := rows[0 := rows[0][unused := None]] + [[]];
    m1 := m.(slots := base + rows1);
    FromBalanceRuns(chain, m1, base, rows1, 0, bought, tOut);
    var rows2, spent := rows1[0 := rows1[0][bought := None]], FlashRows(tOut);
    assert rows2[0] == spent[0] && rows2[1] == spent[1] && rows2[2] == spent[2];
    assert rows2 + [[Some(Coin(tOut))]] == spent;
    m2 := m.(slots := base + spent);
  }

  lemma ExecCons(chain: Chain, m: Machine, m1: Machine, m2: Machine, cmd: PtbCommand, rest: seq<PtbCommand>)
    requires Step(chain, m, cmd) == Some(m1) && Exec(chain, m1, rest) == Some(m2)
    ensures Exec(chain, m, [cmd] + rest) == Some(m2)
  {
    assert ([cmd] + rest)[1..] == rest;
  }

  lemma ExecFive(
    chain: Chain, m: Machine, m1: Machine, m2: Machine, m3: Machine, m4: Machine, m5: Machine,
    c1: PtbCommand, c2: PtbCommand, c3: PtbCommand, c4: PtbCommand, c5: PtbCommand)
    requires Step(chain, m, c1) == Some(m1) && Step(chain, m1, c2) == Some(m2)
    requires Step(chain, m2, c3) == Some(m3) && Step(chain, m3, c4) == Some(m4)
    requires Step(chain, m4, c5) == Some(m5)
    ensures Exec(chain, m, [c1, c2, c3, c4, c5]) == Some(m5)
  {
    ExecCons(chain, m4, m5, m5, c5, []);
    assert [c5] + [] == [c5];
    ExecCons(chain, m3, m4, m5, c4, [c5]);
    ExecCons(chain, m2, m3, m5, c3, [c4] + [c5]);
    ExecCons(chain, m1, m2, m5, c2, [c3] + ([c4] + [c5]));
    ExecCons(chain, m, m1, m5, c1, [c2] + ([c3] + ([c4] + [c5])));
    assert [c1] + ([c2] + ([c3] + ([c4] + [c5]))) == [c1, c2, c3, c4, c5];
  }

  lemma ExecThree(
    chain: Chain, m: Machine, m1: Machine, m2: Machine, m3: Machine, c1: PtbCommand, c2: PtbCommand, c3: PtbCommand)
    requires Step(chain, m, c1) == Some(m1) && Step(chain, m1, c2) == Some(m2) && Step(chain, m2, c3) == Some(m3)
    ensures Exec(chain, m, [c1, c2, c3]) == Some(m3)
  {
    ExecCons(chain, m2, m3, m3, c3, []);
    assert [c3] + [] == [c3];
    ExecCons(chain, m1, m2, m3, c2, [c3]);
    ExecCons(chain, m, m1, m3, c1, [c2] + [c3]);
    assert [c1] + ([c2] + [c3]) == [c1, c2, c3];
  }

  /** A flash swap of `lender` followed by the settlement turns the held coin into one coin of the other
      side, repaying its own receipt three commands after issuing it, and leaves nothing else behind. */
  lemma FlashHopRuns(
    chain: Chain, m: Machine, lender: Lender, pool: PoolState, coin: PtbArgument, s: Slot, aToB: bool,
    flashSwap: PtbCommand, repay: PtbCommand)
    requires HoldsCoin(m, coin, s, InType(pool, aToB))
    requires Step(chain, m, flashSwap)
             == Some(Produce(m, FlashSwapResults(lender, pool.poolId, pool.coinTypeA, pool.coinTypeB, aToB, |m.slots|)))
    requires var (balanceA, balanceB) := RepayBalances(aToB, |m.slots|);
      forall x :: Step(chain, x, repay) == Repay(x, lender, pool.poolId, pool.coinTypeA, pool.coinTypeB,
                                                 balanceA, balanceB, NestedResult(|m.slots|, 2))
    ensures Exec(chain, m, [flashSwap] + SettleCommands(pool, coin, aToB, |m.slots|, repay))
            == Some(m.(slots := Clear(m.slots, s) + FlashRows(OutType(pool, aToB)),
                       repaid := m.repaid[|m.slots| := |m.slots| + 3]))
  {
    var n, base := |m.slots|, m.slots;
    var lent := LentRows(lender, pool, aToB, n);
    var m1 := m.(slots := base + [lent[0]]);
    assert base + [] == base && [] + [lent[0]] == [lent[0]];
    Produces(m, base, [], FlashSwapResults(lender, pool.poolId, pool.coinTypeA, pool.coinTypeB, aToB, n), lent[0]);
    SettleRuns(chain, m1, base, lender, pool, coin, s, aToB, repay);
    var settled := m.(slots := Clear(m.slots, s) + FlashRows(OutType(pool, aToB)), repaid := m.repaid[n := n + 3]);
    ExecCons(chain, m, m1, settled, flashSwap, SettleCommands(pool, coin, aToB, n, repay));
  }

  lemma ConfigPoolHopRuns(
    chain: Chain, m: Machine, package: ClmmPackage, globalConfig: string, pool: PoolState, coin: PtbArgument,
    s: Slot, aToB: bool, expectedAmount: nat, sqrtPriceLimit: nat)
    requires OnChain(chain, pool) && HoldsCoin(m, coin, s, InType(pool, aToB)) && expectedAmount <= U64_MAX
    ensures var n := |m.slots|;
      var (cmds, out) :=
        BuildConfigPoolFlashHop(package, globalConfig, pool, coin, aToB, expectedAmount, sqrtPriceLimit, n);
      && Exec(chain, m, cmds) == Some(m.(slots := Clear(m.slots, s) + FlashRows(OutType(pool, aToB)),
                                         repaid := m.repaid[n := n + 3]))
      && out == Result(n + 5)
  {
    var (cmds, _) := BuildConfigPoolFlashHop(
      package, globalConfig, pool, coin, aToB, expectedAmount, sqrtPriceLimit, |m.slots|);
    FlashHopRuns(chain, m, Clmm(package), pool, coin, s, aToB, cmds[0], cmds[3]);
  }

  lemma MomentumHopRuns(
    chain: Chain, m: Machine, pool: PoolState, coin: PtbArgument, s: Slot, aToB: bool,
    expectedAmount: nat, sqrtPriceLimit: nat)
    requires OnChain(chain, pool) && HoldsCoin(m, coin, s, InType(pool, aToB)) && expectedAmount <= U64_MAX
    ensures var n := |m.slots|;
      var (cmds, out) := BuildMomentumFlashHop(pool, coin, aToB, expectedAmount, sqrtPriceLimit, n);
      && Exec(chain, m, cmds) == Some(m.(slots := Clear(m.slots, s) + FlashRows(OutType(pool, aToB)),
                                         repaid := m.repaid[n := n + 3]))
      && out == Result(n + 5)
  {
    var (cmds, _) := BuildMomentumFlashHop(pool, coin, aToB, expectedAmount, sqrtPriceLimit, |m.slots|);
    FlashHopRuns(chain, m, Momentum, pool, coin, s, aToB, cmds[0], cmds[3]);
  }

  /** A Turbos hop: the held coin goes in through a vector, the leftover goes to the recipient. */
  lemma TurbosHopRuns(
    chain: Chain, m: Machine, pool: PoolState, coin: PtbArgument, s: Slot, aToB: bool,
    expectedAmount: nat, hopMinOut: nat, sqrtPriceLimit: nat, recipient: string, built: Built)
    requires OnChain(chain, pool) && HoldsCoin(m, coin, s, InType(pool, aToB))
    requires BuildTurbosHop(pool, coin, aToB, expectedAmount, hopMinOut, sqrtPriceLimit, |m.slots|, recipient)
             == Ok(built)
    ensures Exec(chain, m, built.0)
            == Some(m.(slots := Clear(m.slots, s) + TurbosRows(OutType(pool, aToB)),
                       delivered := m.delivered + [(recipient, Coin(InType(pool, aToB)))]))
    ensures built.1 == Some(NestedResult(|m.slots| + 1, 0))
  {
    TurbosCommands(pool, coin, aToB, expectedAmount, hopMinOut, sqrtPriceLimit, |m.slots|, recipient, built);
    TurbosCommandsRun(chain, m, pool, coin, s, aToB, recipient, built.0[1]);
  }

  /** The swap call of a Turbos hop takes the vector made by command `n`. */
  predicate SwapsVector(pool: PoolState, aToB: bool, n: nat, cmd: PtbCommand) {
    && cmd.MoveCall? && cmd.target == (if aToB then TurbosSwapAB else TurbosSwapBA)
    && |cmd.typeArguments| == 3 && |cmd.arguments| == 10
    && cmd.typeArguments[0] == pool.coinTypeA && cmd.typeArguments[1] == pool.coinTypeB
    && cmd.arguments[0] == Object(pool.poolId) && cmd.arguments[1] == Result(n)
    && IsU64(cmd.arguments[2]) && IsU64(cmd.arguments[3]) && cmd.arguments[4].U128?
    && cmd.arguments[5] == Bool(true) && cmd.arguments[6].Address? && IsU64(cmd.arguments[7])
    && IsObject(cmd.arguments[8]) && IsObject(cmd.arguments[9])
  }

  lemma TurbosCommands(
    pool: PoolState, coin: PtbArgument, aToB: bool, expectedAmount: nat, hopMinOut: nat, sqrtPriceLimit: nat,
    n: nat, recipient: string, built: Built)
    requires BuildTurbosHop(pool, coin, aToB, expectedAmount, hopMinOut, sqrtPriceLimit, n, recipient) == Ok(built)
    ensures |built.0| == 3 && built.1 == Some(NestedResult(n + 1, 0)) && SwapsVector(pool, aToB, n, built.0[1])
    ensures built.0 == TurbosSequence(pool, coin, aToB, n, recipient, built.0[1])
  {
  }

  function TurbosSequence(
    pool: PoolState, coin: PtbArgument, aToB: bool, n: nat, recipient: string, swap: PtbCommand): seq<PtbCommand>
  {
    [MakeMoveVec(Some(CoinTag(InType(pool, aToB))), [coin]), swap,
     TransferObjects([NestedResult(n + 1, 1)], Address(recipient))]
  }

  lemma TurbosCommandsRun(
    chain: Chain, m: Machine, pool: PoolState, coin: PtbArgument, s: Slot, aToB: bool, recipient: string,
    swap: PtbCommand)
    requires OnChain(chain, pool) && HoldsCoin(m, coin, s, InType(pool, aToB))
    requires SwapsVector(pool, aToB, |m.slots|, swap)
    ensures Exec(chain, m, TurbosSequence(pool, coin, aToB, |m.slots|, recipient, swap))
            == Some(m.(slots := Clear(m.slots, s) + TurbosRows(OutType(pool, aToB)),
                       delivered := m.delivered + [(recipient, Coin(InType(pool, aToB)))]))
  {
    var n, tIn, tOut := |m.slots|, InType(pool, aToB), OutType(pool, aToB);
    var base' := Clear(m.slots, s);
    var cmds := TurbosSequence(pool, coin, aToB, n, recipient, swap);
    var m1 := m.(slots := base' + [[Some(CoinVec(tIn))]]);
    MakeVecRuns(chain, m, coin, s, tIn);
    var m2 := m.(slots := base' + [[None], [Some(Coin(tOut)), Some(Coin(tIn))]]);
    TurbosSwapRuns(chain, m1, base', pool, aToB, swap);
    var m3 := m.(slots := base' + TurbosRows(tOut), delivered := m.delivered + [(recipient, Coin(tIn))]);
    LeftoverRuns(chain, m2, base', tIn, tOut, recipient);
    ExecThree(chain, m, m1, m2, m3, cmds[0], swap, cmds[2]);
  }

  lemma MakeVecRuns(chain: Chain, m: Machine, coin: PtbArgument, s: Slot, t: Token)
    requires HoldsCoin(m, coin, s, t)
    ensures Step(chain, m, MakeMoveVec(Some(CoinTag(t)), [coin]))
            == Some(m.(slots := Clear(m.slots, s) + [[Some(CoinVec(t))]]))
  {
    var m' := m.(slots := Clear(m.slots, s));
    assert [coin][1..] == [];
    assert TakeCoins(m', [], t) == Some(m');
    assert TakeCoins(m, [coin], t) == Some(m');
    assert m'.slots + [] == m'.slots && [] + [[Some(CoinVec(t))]] == [[Some(CoinVec(t))]];
    Produces(m', m'.slots, [], [CoinVec(t)], [Some(CoinVec(t))]);
  }

  lemma TurbosSwapRuns(chain: Chain, m: Machine, base: Results, pool: PoolState, aToB: bool, cmd: PtbCommand)
    requires OnChain(chain, pool) && m.slots == base + [[Some(CoinVec(InType(pool, aToB)))]]
    requires SwapsVector(pool, aToB, |base|, cmd)
    ensures Step(chain, m, cmd)
            == Some(m.(slots := base + [[None], [Some(Coin(OutType(pool, aToB))), Some(Coin(InType(pool, aToB)))]]))
  {
    var tIn, tOut := InType(pool, aToB), OutType(pool, aToB);
    var rows: Results := [[Some(CoinVec(tIn))]];
    TakeFromRows(m, base, rows, Result(|base|), 0, 0);
    assert rows[0][0 := None] == [None] && rows[0 := [None]] == [[None]];
    var m' := m.(slots := base + [[None]]);
    assert Take(m, cmd.arguments[1]) == (Some(CoinVec(tIn)), m');
    Produces(m', base, [[None]], [Coin(tOut), Coin(tIn)], [Some(Coin(tOut)), Some(Coin(tIn))]);
    assert [[None]] + [[Some(Coin(tOut)), Some(Coin(tIn))]] == [[None], [Some(Coin(tOut)), Some(Coin(tIn))]];
  }

  lemma LeftoverRuns(chain: Chain, m: Machine, base: Results, tIn: Token, tOut: Token, recipient: string)
    requires m.slots == base + [[None], [Some(Coin(tOut)), Some(Coin(tIn))]]
    ensures Step(chain, m, TransferObjects([NestedResult(|base| + 1, 1)], Address(recipient)))
            == Some(m.(slots := base + TurbosRows(tOut), delivered := m.delivered + [(recipient, Coin(tIn))]))
  {
    var rows: Results := [[None], [Some(Coin(tOut)), Some(Coin(tIn))]];
    var arg := NestedResult(|base| + 1, 1);
    TakeFromRows(m, base, rows, arg, 1, 1);
    var rows' := rows[1 := rows[1][1 := None]];
    var taken := m.(slots := base + rows', delivered := m.delivered + [(recipient, Coin(tIn))]);
    assert [arg][1..] == [];
    assert Deliver(taken, [], recipient) == Some(taken);
    assert Deliver(m, [arg], recipient) == Some(taken);
    Produces(taken, base, rows', [], []);
    assert rows'[1] == TurbosRows(tOut)[1];
    assert rows' + [[]] == TurbosRows(tOut);
  }

  // ----- any hop

  /** Exactly one resource is left in `rows`: a coin of type `t` at `(k, j)`. */
  ghost predicate OneCoinLeft(rows: Results, k: nat, j: nat, t: Token) {
    && k < |rows| && j < |rows[k]| && rows[k][j] == Some(Coin(t))
    && forall a, b :: 0 <= a < |rows| && 0 <= b < |rows[a]| && (a, b) != (k, j) ==> rows[a][b] == None
  }

  predicate IsFlashSwap(cmd: PtbCommand) {
    cmd.MoveCall? && (cmd.target.ClmmFlashSwap? || cmd.target.MomentumFlashSwap?)
  }

  predicate IsRepay(cmd: PtbCommand) {
    cmd.MoveCall? && (cmd.target.ClmmRepayFlashSwap? || cmd.target.MomentumRepayFlashSwap?)
  }

  /** The command indices of the flash swaps among `cmds`, the first of which is command `start`. */
  ghost function FlashIndices(cmds: seq<PtbCommand>, start: nat): set<nat> {
    set i | 0 <= i < |cmds| && IsFlashSwap(cmds[i]) :: start + i
  }

  /** Exactly the flash swaps among `cmds` (the first of which is command `start`) are repaid, each by
      the repay call three commands later. */
  ghost predicate FlashSwapsRepaid(cmds: seq<PtbCommand>, start: nat, before: map<nat, nat>, after: map<nat, nat>) {
    && after.Keys == before.Keys + FlashIndices(cmds, start)
    && (forall i :: i in before && i < start ==> i in after && after[i] == before[i])
    && forall i :: 0 <= i < |cmds| && IsFlashSwap(cmds[i]) ==>
        after[start + i] == start + i + 3 && i + 3 < |cmds| && IsRepay(cmds[i + 3])
  }

  /** What a hop leaves behind: the held coin in slot `s` is consumed, exactly one new coin, of type
      `tOut` and named by the returned argument, is left in the new `rows`, and every flash swap is repaid. */
  ghost predicate HopOutcome(
    chain: Chain, m: Machine, s: Slot, tIn: Token, tOut: Token, recipient: string, built: Built,
    m': Machine, rows: Results, k: nat, j: nat)
    requires InRange(m.slots, s)
  {
    && Exec(chain, m, built.0) == Some(m')
    && built.1.Some? && Locate(m'.slots, built.1.value) == Some(Slot(|m.slots| + k, j))
    && |rows| == |built.0| <= 6
    && FlashSwapsRepaid(built.0, |m.slots|, m.repaid, m'.repaid)
    && m'.slots == Clear(m.slots, s) + rows && OneCoinLeft(rows, k, j, tOut)
    && m'.merged == m.merged
    && (m'.delivered == m.delivered || m'.delivered == m.delivered + [(recipient, Coin(tIn))])
  }

  /** Executing any accepted hop has that outcome, whichever DEX it uses. */
  lemma HopRuns(
    chain: Chain, m: Machine, pool: PoolState, hop: SwapHop, coin: PtbArgument, s: Slot,
    expectedAmount: nat, hopMinOut: nat, sqrtPriceLimit: nat, recipient: string)
    returns (m': Machine, rows: Results, k: nat, j: nat)
    requires OnChain(chain, pool) && HoldsCoin(m, coin, s, hop.inputToken)
    requires (hop.inputToken, hop.outputToken) == (pool.coinTypeA, pool.coinTypeB)
             || (hop.inputToken, hop.outputToken) == (pool.coinTypeB, pool.coinTypeA)
    requires BuildHopCommands(pool, hop, coin, expectedAmount, hopMinOut, sqrtPriceLimit, |m.slots|, recipient).Ok?
    ensures HopOutcome(
      chain, m, s, hop.inputToken, hop.outputToken, recipient,
      BuildHopCommands(pool, hop, coin, expectedAmount, hopMinOut, sqrtPriceLimit, |m.slots|, recipient).value,
      m', rows, k, j)
  {
    var aToB := hop.inputToken == pool.coinTypeA;
    match DexKind(pool.dexName)
    case Cetus =>
      m', rows, k, j := ConfigPoolOutcome(
        chain, m, CetusPackage, CETUS_GLOBAL_CONFIG, pool, coin, s, aToB, expectedAmount, sqrtPriceLimit, recipient);
    case Magma =>
      m', rows, k, j := ConfigPoolOutcome(
        chain, m, MagmaPackage, MAGMA_GLOBAL_CONFIG, pool, coin, s, aToB, expectedAmount, sqrtPriceLimit, recipient);
    case MomentumDex =>
      m', rows, k, j := MomentumOutcome(chain, m, pool, coin, s, aToB, expectedAmount, sqrtPriceLimit, recipient);
    case Turbos =>
      m', rows, k, j := TurbosOutcome(
        chain, m, pool, coin, s, aToB, expectedAmount, hopMinOut, sqrtPriceLimit, recipient,
        BuildTurbosHop(pool, coin, aToB, expectedAmount, hopMinOut, sqrtPriceLimit, |m.slots|, recipient).value);
  }

  lemma ConfigPoolOutcome(
    chain: Chain, m: Machine, package: ClmmPackage, globalConfig: string, pool: PoolState, coin: PtbArgument,
    s: Slot, aToB: bool, expectedAmount: nat, sqrtPriceLimit: nat, recipient: string)
    returns (m': Machine, rows: Results, k: nat, j: nat)
    requires OnChain(chain, pool) && HoldsCoin(m, coin, s, InType(pool, aToB)) && expectedAmount <= U64_MAX
    ensures var (cmds, out) := BuildConfigPoolFlashHop(
        package, globalConfig, pool, coin, aToB, expectedAmount, sqrtPriceLimit, |m.slots|);
      HopOutcome(chain, m, s, InType(pool, aToB), OutType(pool, aToB), recipient, (cmds, Some(out)), m', rows, k, j)
  {
    ConfigPoolHopRuns(chain, m, package, globalConfig, pool, coin, s, aToB, expectedAmount, sqrtPriceLimit);
    var (cmds, _) := BuildConfigPoolFlashHop(
      package, globalConfig, pool, coin, aToB, expectedAmount, sqrtPriceLimit, |m.slots|);
    m', rows, k, j := FlashOutcome(chain, m, s, InType(pool, aToB), OutType(pool, aToB), recipient, cmds);
  }

  lemma MomentumOutcome(
    chain: Chain, m: Machine, pool: PoolState, coin: PtbArgument, s: Slot, aToB: bool,
    expectedAmount: nat, sqrtPriceLimit: nat, recipient: string)
    returns (m': Machine, rows: Results, k: nat, j: nat)
    requires OnChain(chain, pool) && HoldsCoin(m, coin, s, InType(pool, aToB)) && expectedAmount <= U64_MAX
    ensures var (cmds, out) := BuildMomentumFlashHop(pool, coin, aToB, expectedAmount, sqrtPriceLimit, |m.slots|);
      HopOutcome(chain, m, s, InType(pool, aToB), OutType(pool, aToB), recipient, (cmds, Some(out)), m', rows, k, j)
  {
    MomentumHopRuns(chain, m, pool, coin, s, aToB, expectedAmount, sqrtPriceLimit);
    var (cmds, _) := BuildMomentumFlashHop(pool, coin, aToB, expectedAmount, sqrtPriceLimit, |m.slots|);
    m', rows, k, j := FlashOutcome(chain, m, s, InType(pool, aToB), OutType(pool, aToB), recipient, cmds);
  }

  /** The common outcome of the flash hops. */
  lemma FlashOutcome(
    chain: Chain, m: Machine, s: Slot, tIn: Token, tOut: Token, recipient: string, cmds: seq<PtbCommand>)
    returns (m': Machine, rows: Results, k: nat, j: nat)
    requires InRange(m.slots, s) && |cmds| == 6
    requires IsFlashSwap(cmds[0]) && IsRepay(cmds[3])
    requires forall i :: 1 <= i < 6 ==> !IsFlashSwap(cmds[i])
    requires Exec(chain, m, cmds)
             == Some(m.(slots := Clear(m.slots, s) + FlashRows(tOut), repaid := m.repaid[|m.slots| := |m.slots| + 3]))
    ensures HopOutcome(chain, m, s, tIn, tOut, recipient, (cmds, Some(Result(|m.slots| + 5))), m', rows, k, j)
  {
    rows, k, j := FlashRows(tOut), 5, 0;
    m' := m.(slots := Clear(m.slots, s) + rows, repaid := m.repaid[|m.slots| := |m.slots| + 3]);
    RowAccess(Clear(m.slots, s), rows, 5, 0);
    assert FlashIndices(cmds, |m.slots|) == {|m.slots|} by {
      assert |m.slots| + 0 in FlashIndices(cmds, |m.slots|);
    }
  }

  lemma TurbosOutcome(
    chain: Chain, m: Machine, pool: PoolState, coin: PtbArgument, s: Slot, aToB: bool,
    expectedAmount: nat, hopMinOut: nat, sqrtPriceLimit: nat, recipient: string, built: Built)
    returns (m': Machine, rows: Results, k: nat, j: nat)
    requires OnChain(chain, pool) && HoldsCoin(m, coin, s, InType(pool, aToB))
    requires BuildTurbosHop(pool, coin, aToB, expectedAmount, hopMinOut, sqrtPriceLimit, |m.slots|, recipient)
             == Ok(built)
    ensures HopOutcome(chain, m, s, InType(pool, aToB), OutType(pool, aToB), recipient, built, m', rows, k, j)
  {
    TurbosHopRuns(chain, m, pool, coin, s, aToB, expectedAmount, hopMinOut, sqrtPriceLimit, recipient, built);
    rows, k, j := TurbosRows(OutType(pool, aToB)), 1, 0;
    m' := m.(slots := Clear(m.slots, s) + rows,
             delivered := m.delivered + [(recipient, Coin(InType(pool, aToB)))]);
    RowAccess(Clear(m.slots, s), rows, 1, 0);
  }
}
