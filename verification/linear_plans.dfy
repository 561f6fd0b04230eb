/** Facts about executing a plan piece by piece: which slots stay live, and what the final transfer takes. */
module LinearPlans {
  import opened Models
  import opened Ptb
  import opened DexSwap

  /** The slots that still hold a resource. */
  ghost function LiveSlots(slots: Results): set<Slot> {
    set i, j | 0 <= i < |slots| && 0 <= j < |slots[i]| && slots[i][j].Some? :: Slot(i, j)
  }

  lemma LiveIff(slots: Results, s: Slot)
    ensures s in LiveSlots(slots) <==> InRange(slots, s) && At(slots, s).Some?
  {
    if InRange(slots, s) && At(slots, s).Some? {
      assert slots[s.cmd][s.sub].Some? && s == Slot(s.cmd, s.sub);
    }
  }

  lemma ExhaustedIff(m: Machine)
    ensures LiveSlots(m.slots) == {} <==> Exhausted(m)
  {
    forall i, j | 0 <= i < |m.slots| && 0 <= j < |m.slots[i]|
      ensures Slot(i, j) in LiveSlots(m.slots) <==> m.slots[i][j].Some?
    {
      LiveIff(m.slots, Slot(i, j));
    }
  }

  /** Clearing one slot and appending rows with a single coin. */
  lemma LiveAfterHop(base: Results, s: Slot, rows: Results, k: nat, j: nat, t: Token)
    requires InRange(base, s) && OneCoinLeft(rows, k, j, t)
    ensures LiveSlots(Clear(base, s) + rows) == LiveSlots(base) - {s} + {Slot(|base| + k, j)}
  {
    var after := Clear(base, s) + rows;
    forall x
      ensures x in LiveSlots(after) <==> x in LiveSlots(base) - {s} + {Slot(|base| + k, j)}
    {
      LiveIff(after, x);
      LiveIff(base, x);
      if InRange(after, x) && x.cmd >= |base| {
        assert At(after, x) == rows[x.cmd - |base|][x.sub];
      }
    }
  }

  lemma LiveAfterClear(slots: Results, s: Slot)
    requires InRange(slots, s)
    ensures LiveSlots(Clear(slots, s)) == LiveSlots(slots) - {s}
  {
    forall x
      ensures x in LiveSlots(Clear(slots, s)) <==> x in LiveSlots(slots) - {s}
    {
      LiveIff(Clear(slots, s), x);
      LiveIff(slots, x);
    }
  }

  /** Appending a row of fresh coins. */
  lemma LiveAfterRow(slots: Results, row: seq<Option<Resource>>)
    ensures LiveSlots(slots + [row])
            == LiveSlots(slots) + set j | 0 <= j < |row| && row[j].Some? :: Slot(|slots|, j)
  {
    var after := slots + [row];
    forall x
      ensures x in LiveSlots(after)
              <==> x in LiveSlots(slots) || (x.cmd == |slots| && x.sub < |row| && row[x.sub].Some?)
    {
      LiveIff(after, x);
      LiveIff(slots, x);
    }
  }

  /** Slots outside the cleared one keep their resource, and arguments keep naming their slots. */
  lemma UntouchedByHop(base: Results, s: Slot, rows: Results, arg: PtbArgument, x: Slot)
    requires InRange(base, s) && Locate(base, arg) == Some(x) && x != s
    ensures Locate(Clear(base, s) + rows, arg) == Some(x)
    ensures At(Clear(base, s) + rows, x) == At(base, x)
  {
  }

  /** `args` name pairwise different slots, in order, each holding a coin of type `t`. */
  ghost predicate NamesCoins(slots: Results, args: seq<PtbArgument>, at: seq<Slot>, t: Token) {
    && |args| == |at|
    && (forall i :: 0 <= i < |args| ==> NamesCoin(slots, args[i], at[i], t))
    && (forall i, j :: 0 <= i < j < |at| ==> at[i] != at[j])
  }

  ghost predicate NamesCoin(slots: Results, arg: PtbArgument, s: Slot, t: Token) {
    Locate(slots, arg) == Some(s) && At(slots, s) == Some(Coin(t))
  }

  ghost function SlotSet(at: seq<Slot>): set<Slot> {
    set i | 0 <= i < |at| :: at[i]
  }

  /** Distinct coins can be transferred together, and exactly those leave the machine. */
  lemma {:induction false} DeliverAll(m: Machine, args: seq<PtbArgument>, at: seq<Slot>, t: Token, owner: string)
    requires NamesCoins(m.slots, args, at, t)
    ensures var d := Deliver(m, args, owner);
      && d.Some?
      && LiveSlots(d.value.slots) == LiveSlots(m.slots) - SlotSet(at)
      && |d.value.slots| == |m.slots| && d.value.repaid == m.repaid
      && d.value.delivered == m.delivered + seq(|args|, _ => (owner, Coin(t)))
    decreases |args|
  {
    if args == [] {
      assert SlotSet(at) == {};
      assert m.delivered + seq(0, _ => (owner, Coin(t))) == m.delivered;
    } else {
      assert NamesCoin(m.slots, args[0], at[0], t);
      var m' := m.(slots := Clear(m.slots, at[0]), delivered := m.delivered + [(owner, Coin(t))]);
      LiveAfterClear(m.slots, at[0]);
      forall i | 0 <= i < |args| - 1
        ensures NamesCoin(m'.slots, args[1..][i], at[1..][i], t)
      {
        assert NamesCoin(m.slots, args[i + 1], at[i + 1], t);
      }
      DeliverAll(m', args[1..], at[1..], t, owner);
      assert SlotSet(at) == {at[0]} + SlotSet(at[1..]) by {
        forall x | x in SlotSet(at)
          ensures x in {at[0]} + SlotSet(at[1..])
        {
          var i :| 0 <= i < |at| && at[i] == x;
          assert i > 0 ==> at[1..][i - 1] == x;
        }
        assert forall i :: 0 <= i < |at| - 1 ==> at[1..][i] == at[i + 1];
      }
      assert [(owner, Coin(t))] + seq(|args| - 1, _ => (owner, Coin(t))) == seq(|args|, _ => (owner, Coin(t)));
    }
  }

  /** Two runs of commands in a row repay the flash swaps of both. */
  lemma RepaidConcat(
    a: seq<PtbCommand>, b: seq<PtbCommand>, start: nat,
    before: map<nat, nat>, middle: map<nat, nat>, after: map<nat, nat>)
    requires FlashSwapsRepaid(a, start, before, middle) && FlashSwapsRepaid(b, start + |a|, middle, after)
    requires forall i :: i in before ==> i < start
    ensures FlashSwapsRepaid(a + b, start, before, after)
  {
    forall x
      ensures x in FlashIndices(a + b, start) <==> x in FlashIndices(a, start) + FlashIndices(b, start + |a|)
    {
      if x in FlashIndices(a, start) {
        var i :| 0 <= i < |a| && IsFlashSwap(a[i]) && x == start + i;
        assert (a + b)[i] == a[i];
      }
      if x in FlashIndices(b, start + |a|) {
        var i :| 0 <= i < |b| && IsFlashSwap(b[i]) && x == start + |a| + i;
        assert (a + b)[|a| + i] == b[i];
      }
    }
    forall i | 0 <= i < |a + b| && IsFlashSwap((a + b)[i])
      ensures after[start + i] == start + i + 3 && i + 3 < |a + b| && IsRepay((a + b)[i + 3])
    {
      if i < |a| {
        assert IsFlashSwap(a[i]);
        assert start + i in FlashIndices(a, start);
      } else {
        assert IsFlashSwap(b[i - |a|]);
        assert start + |a| + (i - |a|) in FlashIndices(b, start + |a|);
      }
    }
  }

  /** Commands without flash swaps that leave the repayments alone. */
  lemma NothingToRepay(cmds: seq<PtbCommand>, start: nat, repaid: map<nat, nat>)
    requires forall i :: 0 <= i < |cmds| ==> !IsFlashSwap(cmds[i])
    ensures FlashSwapsRepaid(cmds, start, repaid, repaid)
  {
    assert FlashIndices(cmds, start) == {};
  }

  /** A coin of another type than the hop's input makes every hop fail. */
  lemma WrongCoinFails(
    chain: Chain, m: Machine, pool: PoolState, hop: SwapHop, coin: PtbArgument, s: Slot, t: Token,
    expectedAmount: nat, hopMinOut: nat, sqrtPriceLimit: nat, start: nat, recipient: string)
    requires HoldsCoin(m, coin, s, t) && t != InType(pool, hop.inputToken == pool.coinTypeA)
    requires BuildHopCommands(pool, hop, coin, expectedAmount, hopMinOut, sqrtPriceLimit, start, recipient).Ok?
    ensures Exec(chain, m,
      BuildHopCommands(pool, hop, coin, expectedAmount, hopMinOut, sqrtPriceLimit, start, recipient).value.0) == None
  {
    var tIn := InType(pool, hop.inputToken == pool.coinTypeA);
    var cmds := BuildHopCommands(pool, hop, coin, expectedAmount, hopMinOut, sqrtPriceLimit, start, recipient).value.0;
    if DexKind(pool.dexName) == Turbos {
      assert cmds[0] == MakeMoveVec(Some(CoinTag(tIn)), [coin]);
      WrongCoinMakesNoVector(chain, m, coin, s, t, tIn, cmds);
    } else {
      assert cmds[1] == MoveCall(CoinIntoBalance, [tIn], [coin]);
      WrongCoinMakesNoBalance(chain, m, coin, s, t, tIn, cmds);
    }
  }

  lemma WrongCoinMakesNoVector(
    chain: Chain, m: Machine, coin: PtbArgument, s: Slot, t: Token, tIn: Token, cmds: seq<PtbCommand>)
    requires HoldsCoin(m, coin, s, t) && t != tIn
    requires cmds != [] && cmds[0] == MakeMoveVec(Some(CoinTag(tIn)), [coin])
    ensures Exec(chain, m, cmds) == None
  {
    CoinTagInjective(t, tIn);
    assert Step(chain, m, cmds[0]) == None;
  }

  /** Whatever flash swap comes first. */
  lemma WrongCoinMakesNoBalance(
    chain: Chain, m: Machine, coin: PtbArgument, s: Slot, t: Token, tIn: Token, cmds: seq<PtbCommand>)
    requires HoldsCoin(m, coin, s, t) && t != tIn
    requires |cmds| >= 2 && IsFlashSwap(cmds[0]) && cmds[1] == MoveCall(CoinIntoBalance, [tIn], [coin])
    ensures Exec(chain, m, cmds) == None
  {
    var m' := Step(chain, m, cmds[0]);
    if m'.Some? {
      FlashSwapAppends(chain, m, cmds[0]);
      BaseAccess(m.slots, [m'.value.slots[|m.slots|]], coin, s);
      assert Step(chain, m'.value, cmds[1]) == None;
      assert cmds[1..][0] == cmds[1];
    }
  }

  lemma FlashSwapAppends(chain: Chain, m: Machine, cmd: PtbCommand)
    requires IsFlashSwap(cmd) && Step(chain, m, cmd).Some?
    ensures var slots := Step(chain, m, cmd).value.slots;
      |slots| == |m.slots| + 1 && slots == m.slots + [slots[|m.slots|]]
  {
  }

  lemma CoinTagInjective(a: Token, b: Token)
    requires a != b
    ensures CoinTag(a) != CoinTag(b)
  {
    var n := |"0x2::coin::Coin<"|;
    assert CoinTag(a)[n..|CoinTag(a)| - 1] == a;
    assert CoinTag(b)[n..|CoinTag(b)| - 1] == b;
  }
}
