/** Data shared by the routing, planning and storage models (src/models.rs). */
module Models {

  datatype Option<+T> = None | Some(value: T)

  datatype Result<+T, +E> = Ok(value: T) | Err(error: E)

  /** Coin types are compared as whole strings throughout the source. */
  type Token = string

  datatype PoolState = PoolState(
    poolId: string,
    dexName: string,
    coinTypeA: Token,
    coinTypeB: Token,
    sqrtPrice: nat,
    liquidity: nat,
    feeRate: nat,
    isPaused: bool)

  datatype TickInfo = TickInfo(tickIndex: int, liquidityNet: int)

  datatype PoolTickData = PoolTickData(poolId: string, currentTickIndex: int, ticks: seq<TickInfo>)

  /** One edge of the token graph: the pool that realises it. */
  datatype Edge = Edge(poolId: string, dexName: string, feeRate: nat)

  datatype SwapHop = SwapHop(
    poolId: string,
    dexName: string,
    inputToken: Token,
    outputToken: Token,
    feeRate: nat)

  datatype RoutePath = RoutePath(hops: seq<SwapHop>)
}
