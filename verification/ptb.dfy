/** Programmable transaction blocks (src/models.rs) and a linear, typed reading of them: every coin,
    balance, coin vector and flash-swap receipt is a resource that must be used exactly once. */
module Ptb {
  import opened Models

  datatype PtbArgument =
    | GasCoin
    | InputCoin
    | Result(cmd: nat)
    | NestedResult(cmd: nat, sub: nat)
    | Pure(text: string)
    | Object(id: string)
    | Bool(flag: bool)
    | U64(value: nat)
    | U128(value: nat)
    | Address(address: string)

  /** The DEX packages whose flash swaps share one calling convention. */
  datatype ClmmPackage = CetusPackage | MagmaPackage

  /** The Move functions the builders call: a fixed (package, module, function) triple each. */
  datatype MoveFunction =
    | ClmmFlashSwap(package: ClmmPackage)
    | ClmmRepayFlashSwap(package: ClmmPackage)
    | MomentumFlashSwap
    | MomentumRepayFlashSwap
    | TurbosSwapAB
    | TurbosSwapBA
    | CoinIntoBalance
    | CoinFromBalance
    | BalanceZero
    | BalanceDestroyZero

  datatype PtbCommand =
    | SplitCoins(coin: PtbArgument, amounts: seq<PtbArgument>)
    | MoveCall(target: MoveFunction, typeArguments: seq<Token>, arguments: seq<PtbArgument>)
    | TransferObjects(objects: seq<PtbArgument>, address: PtbArgument)
    | MergeCoins(destination: PtbArgument, sources: seq<PtbArgument>)
    | MakeMoveVec(typeTag: Option<string>, elements: seq<PtbArgument>)

  /** `0x2::coin::Coin<T>` */
  function CoinTag(t: Token): string {
    "0x2::coin::Coin<" + t + ">"
  }

  // ----- resources

  /** Who issued a flash-swap receipt. */
  datatype Lender = Clmm(package: ClmmPackage) | Momentum

  datatype Resource =
    | Coin(t: Token)
    | Balance(t: Token, empty: bool)
    | Receipt(lender: Lender, pool: string, aToB: bool, issuedAt: nat)
    | CoinVec(t: Token)

  /** Position `sub` among the results of command `cmd`. */
  datatype Slot = Slot(cmd: nat, sub: nat)

  /** What the transaction finds on chain: the gas coin's type, its input coins and the pools. */
  datatype Chain = Chain(gasType: Token, coins: map<string, Token>, pools: map<string, PoolState>)

  type Results = seq<seq<Option<Resource>>>

  /** The results of the commands executed so far (`None` once consumed), the input coins merged
      away, what was handed to whom, and which command repaid which flash swap. */
  datatype Machine = Machine(
    slots: Results,
    merged: set<string>,
    delivered: seq<(string, Resource)>,
    repaid: map<nat, nat>)

  const EMPTY_MACHINE: Machine := Machine([], {}, [], map[])

  predicate InRange(slots: Results, s: Slot) {
    s.cmd < |slots| && s.sub < |slots[s.cmd]|
  }

  function At(slots: Results, s: Slot): Option<Resource>
    requires InRange(slots, s)
  {
    slots[s.cmd][s.sub]
  }

  /** `Result(i)` needs a command with exactly one result. */
  function Locate(slots: Results, arg: PtbArgument): (s: Option<Slot>)
    ensures s.Some? ==> InRange(slots, s.value)
  {
    match arg
    case Result(i) => if i < |slots| && |slots[i]| == 1 then Some(Slot(i, 0)) else None
    case NestedResult(i, j) => if i < |slots| && j < |slots[i]| then Some(Slot(i, j)) else None
    case _ => None
  }

  /** The resource an argument names, if it is still there. */
  function Peek(m: Machine, arg: PtbArgument): Option<Resource> {
    match Locate(m.slots, arg)
    case Some(s) => At(m.slots, s)
    case None => None
  }

  function Clear(slots: Results, s: Slot): (r: Results)
    requires InRange(slots, s)
    ensures |r| == |slots| && forall i :: 0 <= i < |slots| ==> |r[i]| == |slots[i]|
  {
    slots[s.cmd := slots[s.cmd][s.sub := None]]
  }

  /** Take the resource an argument names out of the machine. */
  function Take(m: Machine, arg: PtbArgument): (Option<Resource>, Machine) {
    match Locate(m.slots, arg)
    case Some(s) => (At(m.slots, s), m.(slots := Clear(m.slots, s)))
    case None => (None, m)
  }

  /** Append the results of one more command. */
  function Produce(m: Machine, results: seq<Resource>): Machine {
    m.(slots := m.slots + [seq(|results|, i requires 0 <= i < |results| => Some(results[i]))])
  }

  /** Take coins of type `t`, one argument after the other. */
  function TakeCoins(m: Machine, args: seq<PtbArgument>, t: Token): Option<Machine>
    decreases |args|
  {
    if args == [] then Some(m)
    else
      var (r, m') := Take(m, args[0]);
      if r == Some(Coin(t)) then TakeCoins(m', args[1..], t) else None
  }

  /** Hand objects over to `owner`, one argument after the other; only coins can be transferred. */
  function Deliver(m: Machine, args: seq<PtbArgument>, owner: string): Option<Machine>
    decreases |args|
  {
    if args == [] then Some(m)
    else
      var (r, m') := Take(m, args[0]);
      if r.Some? && r.value.Coin? then
        Deliver(m'.(delivered := m'.delivered + [(owner, r.value)]), args[1..], owner)
      else None
  }

  /** The type of the coin a split or a merge works on in place. */
  function CoinType(chain: Chain, m: Machine, arg: PtbArgument): Option<Token> {
    match arg
    case GasCoin => Some(chain.gasType)
    case Object(id) => if id in chain.coins && id !in m.merged then Some(chain.coins[id]) else None
    case _ =>
      var r := Peek(m, arg);
      if r.Some? && r.value.Coin? then Some(r.value.t) else None
  }

  function FreshCoins(n: nat, t: Token): seq<Resource> {
    seq(n, _ => Coin(t))
  }

  predicate IsU64(arg: PtbArgument) {
    arg.U64? && arg.value <= 0xffff_ffff_ffff_ffff
  }

  predicate IsObject(arg: PtbArgument) {
    arg.Object?
  }

  /** Merge input coins into another coin of the same type. */
  function MergeInto(chain: Chain, m: Machine, t: Token, sources: seq<PtbArgument>): Option<Machine>
    decreases |sources|
  {
    if sources == [] then Some(m)
    else if sources[0].Object? && CoinType(chain, m, sources[0]) == Some(t) then
      MergeInto(chain, m.(merged := m.merged + {sources[0].id}), t, sources[1..])
    else None
  }

  /** The type arguments are the two coin types of pool `id`. */
  predicate PoolTypes(chain: Chain, id: PtbArgument, typeArguments: seq<Token>) {
    && id.Object? && id.id in chain.pools && |typeArguments| >= 2
    && typeArguments[0] == chain.pools[id.id].coinTypeA && typeArguments[1] == chain.pools[id.id].coinTypeB
  }

  /** A flash swap lends the output side and leaves the input side empty until it is repaid. */
  function FlashSwapResults(lender: Lender, pool: string, a: Token, b: Token, aToB: bool, at: nat): seq<Resource> {
    [Balance(a, aToB), Balance(b, !aToB), Receipt(lender, pool, aToB, at)]
  }

  /** Repay: the paid side must be funded, the other side empty, and the receipt must be this pool's own. */
  function Repay(
    m: Machine, lender: Lender, pool: string, a: Token, b: Token,
    balanceA: PtbArgument, balanceB: PtbArgument, receipt: PtbArgument): Option<Machine>
  {
    var (ra, m1) := Take(m, balanceA);
    var (rb, m2) := Take(m1, balanceB);
    var (rr, m3) := Take(m2, receipt);
    if rr.Some? && rr.value.Receipt? && rr.value.lender == lender && rr.value.pool == pool
       && ra == Some(Balance(a, !rr.value.aToB)) && rb == Some(Balance(b, rr.value.aToB))
    then Some(Produce(m3.(repaid := m3.repaid[rr.value.issuedAt := |m.slots|]), []))
    else None
  }

  function TurbosSwap(chain: Chain, m: Machine, types: seq<Token>, args: seq<PtbArgument>, aToB: bool)
    : Option<Machine>
  {
    if |types| == 3 && |args| == 10 && PoolTypes(chain, args[0], types)
       && IsU64(args[2]) && IsU64(args[3]) && args[4].U128? && args[5] == Bool(true) && args[6].Address?
       && IsU64(args[7]) && IsObject(args[8]) && IsObject(args[9])
    then
      var (vec, m') := Take(m, args[1]);
      var (tIn, tOut) := if aToB then (types[0], types[1]) else (types[1], types[0]);
      if vec == Some(CoinVec(tIn)) then Some(Produce(m', [Coin(tOut), Coin(tIn)])) else None
    else None
  }

  /** One Move call under its signature; `None` when it does not type-check or reuses a resource. */
  function Call(chain: Chain, m: Machine, f: MoveFunction, types: seq<Token>, args: seq<PtbArgument>): Option<Machine> {
    match f
    case ClmmFlashSwap(package) =>
      if |types| == 2 && |args| == 7 && PoolTypes(chain, args[1], types) && IsObject(args[0])
         && args[2].Bool? && args[3] == Bool(true) && IsU64(args[4]) && args[5].U128? && IsObject(args[6])
      then Some(Produce(m, FlashSwapResults(Clmm(package), args[1].id, types[0], types[1], args[2].flag, |m.slots|)))
      else None
    case ClmmRepayFlashSwap(package) =>
      if |types| == 2 && |args| == 5 && PoolTypes(chain, args[1], types) && IsObject(args[0])
      then Repay(m, Clmm(package), args[1].id, types[0], types[1], args[2], args[3], args[4])
      else None
    case MomentumFlashSwap =>
      if |types| == 2 && |args| == 7 && PoolTypes(chain, args[0], types)
         && args[1].Bool? && args[2] == Bool(true) && IsU64(args[3]) && args[4].U128?
         && IsObject(args[5]) && IsObject(args[6])
      then Some(Produce(m, FlashSwapResults(Lender.Momentum, args[0].id, types[0], types[1], args[1].flag, |m.slots|)))
      else None
    case MomentumRepayFlashSwap =>
      if |types| == 2 && |args| == 5 && PoolTypes(chain, args[0], types) && IsObject(args[4])
      then Repay(m, Lender.Momentum, args[0].id, types[0], types[1], args[2], args[3], args[1])
      else None
    case TurbosSwapAB => TurbosSwap(chain, m, types, args, true)
    case TurbosSwapBA => TurbosSwap(chain, m, types, args, false)
    case CoinIntoBalance =>
      if |types| == 1 && |args| == 1 then
        var (r, m') := Take(m, args[0]);
        if r == Some(Coin(types[0])) then Some(Produce(m', [Balance(types[0], false)])) else None
      else None
    case CoinFromBalance =>
      if |types| == 1 && |args| == 1 then
        var (r, m') := Take(m, args[0]);
        if r == Some(Balance(types[0], false)) then Some(Produce(m', [Coin(types[0])])) else None
      else None
    case BalanceZero =>
      if |types| == 1 && args == [] then Some(Produce(m, [Balance(types[0], true)])) else None
    case BalanceDestroyZero =>
      if |types| == 1 && |args| == 1 then
        var (r, m') := Take(m, args[0]);
        if r == Some(Balance(types[0], true)) then Some(Produce(m', [])) else None
      else None
  }

  /** Execute one command. */
  function Step(chain: Chain, m: Machine, cmd: PtbCommand): Option<Machine> {
    match cmd
    case SplitCoins(coin, amounts) =>
      var t := CoinType(chain, m, coin);
      if t.Some? && forall i :: 0 <= i < |amounts| ==> IsU64(amounts[i])
      then Some(Produce(m, FreshCoins(|amounts|, t.value)))
      else None
    case MergeCoins(destination, sources) =>
      var t := CoinType(chain, m, destination);
      if t.Some? && destination !in sources then
        var m' := MergeInto(chain, m, t.value, sources);
        if m'.Some? then Some(Produce(m'.value, [])) else None
      else None
    case TransferObjects(objects, address) =>
      if address.Address? then
        var m' := Deliver(m, objects, address.address);
        if m'.Some? then Some(Produce(m'.value, [])) else None
      else None
    case MakeMoveVec(typeTag, elements) =>
      if elements != [] then
        var r := Peek(m, elements[0]);
        if r.Some? && r.value.Coin? && typeTag == Some(CoinTag(r.value.t)) then
          var m' := TakeCoins(m, elements, r.value.t);
          if m'.Some? then Some(Produce(m'.value, [CoinVec(r.value.t)])) else None
        else None
      else None
    case MoveCall(target, types, args) => Call(chain, m, target, types, args)
  }

  function Exec(chain: Chain, m: Machine, cmds: seq<PtbCommand>): Option<Machine>
    decreases |cmds|
  {
    if cmds == [] then Some(m)
    else
      var m' := Step(chain, m, cmds[0]);
      if m'.Some? then Exec(chain, m'.value, cmds[1..]) else None
  }

  lemma {:induction false} ExecConcat(chain: Chain, m: Machine, a: seq<PtbCommand>, b: seq<PtbCommand>)
    ensures Exec(chain, m, a + b)
            == if Exec(chain, m, a).Some? then Exec(chain, Exec(chain, m, a).value, b) else None
    decreases |a|
  {
    if a == [] {
      assert a + b == b;
    } else {
      assert (a + b)[1..] == a[1..] + b;
      var m' := Step(chain, m, a[0]);
      if m'.Some? {
        ExecConcat(chain, m'.value, a[1..], b);
      }
    }
  }

  /** Nothing that had to be used is left over. */
  predicate Exhausted(m: Machine) {
    forall i, j :: 0 <= i < |m.slots| && 0 <= j < |m.slots[i]| ==> m.slots[i][j] == None
  }
}
