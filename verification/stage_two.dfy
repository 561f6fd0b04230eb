/** The second stage: from a symbolic plan to builder calls (src/transaction_builder.rs and
    `collect_object_ids_from_ptb` in src/api/quote.rs). The builder itself is a log of its calls;
    parsing addresses, digests and type tags is a parameter. */
module StageTwo {
  import opened Models
  import opened Ptb

  datatype OwnerKind = Owned | Shared | Immutable

  datatype ObjectMeta = ObjectMeta(
    objectId: string,
    version: nat,
    digest: string,
    ownerKind: OwnerKind,
    initialSharedVersion: Option<nat>,
    mutable: bool)

  /** What the external parsers make of a text. */
  datatype Parsers = Parsers(
    address: string -> bool,
    digest: string -> bool,
    typeTag: string -> bool,
    target: MoveFunction -> bool,
    boolean: string -> Option<bool>,
    u64: string -> Option<nat>,
    u128: string -> Option<nat>)

  datatype BuildInput = BuildInput(objectMeta: map<string, ObjectMeta>, parsers: Parsers)

  datatype TxBuildError =
    | InvalidAddress(value: string)
    | InvalidDigest(value: string)
    | InvalidTypeTag(value: string)
    | InvalidTarget(f: MoveFunction)
    | InvalidPureValue(value: string)
    | MissingObjectMeta(id: string)
    | MissingSharedVersion(id: string)
    | UnresolvedInputCoin
    | MissingCommandResult(index: nat, len: nat)
    | CommandHasNoResult(index: nat)
    | InvalidSplitAmount

  /** The error reports a text the parsers reject, or a shared object fetched without its version: a fault
      of the outside world, not of the plan. */
  ghost predicate OutsideFault(input: BuildInput, e: TxBuildError) {
    match e
    case InvalidAddress(s) => !input.parsers.address(s)
    case InvalidDigest(s) => !input.parsers.digest(s)
    case InvalidTypeTag(s) => !input.parsers.typeTag(s)
    case InvalidTarget(f) => !input.parsers.target(f)
    case MissingSharedVersion(id) =>
      exists k :: k in input.objectMeta && input.objectMeta[k].objectId == id
                  && input.objectMeta[k].ownerKind.Shared? && input.objectMeta[k].initialSharedVersion.None?
    case _ => false
  }

  datatype PureValue = BoolValue(flag: bool) | U64Value(n: nat) | U128Value(n: nat) | AddressValue(address: string)

  datatype ObjectInput =
    | OwnedInput(id: string, version: nat, digest: string)
    | ImmutableInput(id: string, version: nat, digest: string)
    | SharedInput(id: string, initialVersion: nat, mutable: bool)

  /** A builder argument; a command's result as a whole or one of its parts. */
  datatype Argument =
    | Gas
    | ObjectArg(object_: ObjectInput)
    | PureInput(value: PureValue)
    | WholeResult(command: nat)
    | PartOf(command: nat, part: nat)

  datatype BuilderCommand =
    | BuilderSplit(coin: Argument, amounts: seq<Argument>)
    | BuilderMerge(destination: Argument, sources: seq<Argument>)
    | BuilderTransfer(objects: seq<Argument>, address: Argument)
    | BuilderCall(target: MoveFunction, typeArguments: seq<Token>, arguments: seq<Argument>)
    | BuilderVec(typeTag: Option<string>, elements: seq<Argument>)

  type Roots = seq<Option<Argument>>

  type Mapped = Models.Result<Argument, TxBuildError>

  function ResultOf(roots: Roots, cmd: nat): Mapped {
    if cmd >= |roots| then Err(MissingCommandResult(cmd, |roots|))
    else match roots[cmd]
      case Some(root) => Ok(root)
      case None => Err(CommandHasNoResult(cmd))
  }

  /** `root.to_nested(idx + 1)[idx]`: part `idx` of the command the root belongs to. */
  function NestedOf(root: Argument, idx: nat): Argument {
    match root
    case WholeResult(c) => PartOf(c, idx)
    case PartOf(c, _) => PartOf(c, idx)
    case other => other
  }

  /** One result root per command processed so far. */
  class ResultTracker {
    var roots: Roots

    constructor ()
      ensures roots == []
    {
      roots := [];
    }

    method PushRoot(root: Option<Argument>)
      modifies this
      ensures roots == old(roots) + [root]
    {
      roots := roots + [root];
    }
  }

  /** The calls made on the external transaction builder. */
  class TransactionBuilder {
    var calls: seq<BuilderCommand>

    constructor ()
      ensures calls == []
    {
      calls := [];
    }

    /** Record a call; its position is the command's index in the built transaction. */
    method Add(call: BuilderCommand) returns (index: nat)
      modifies this
      ensures calls == old(calls) + [call] && index == |old(calls)|
    {
      index := |calls|;
      calls := calls + [call];
    }
  }

  function ObjectInputFromMeta(input: BuildInput, meta: ObjectMeta): Mapped {
    if !input.parsers.address(meta.objectId) then Err(InvalidAddress(meta.objectId))
    else match meta.ownerKind
      case Owned =>
        if input.parsers.digest(meta.digest) then Ok(ObjectArg(OwnedInput(meta.objectId, meta.version, meta.digest)))
        else Err(InvalidDigest(meta.digest))
      case Immutable =>
        if input.parsers.digest(meta.digest) then
          Ok(ObjectArg(ImmutableInput(meta.objectId, meta.version, meta.digest)))
        else Err(InvalidDigest(meta.digest))
      case Shared =>
        match meta.initialSharedVersion
        case Some(v) => Ok(ObjectArg(SharedInput(meta.objectId, v, meta.mutable)))
        case None => Err(MissingSharedVersion(meta.objectId))
  }

  function MapPureString(input: BuildInput, s: string): Mapped {
    if input.parsers.boolean(s).Some? then Ok(PureInput(BoolValue(input.parsers.boolean(s).value)))
    else if input.parsers.u64(s).Some? then Ok(PureInput(U64Value(input.parsers.u64(s).value)))
    else if input.parsers.u128(s).Some? then Ok(PureInput(U128Value(input.parsers.u128(s).value)))
    else if input.parsers.address(s) then Ok(PureInput(AddressValue(s)))
    else Err(InvalidPureValue(s))
  }

  function MapArgument(input: BuildInput, roots: Roots, arg: PtbArgument): Mapped {
    match arg
    case GasCoin => Ok(Gas)
    case InputCoin => Err(UnresolvedInputCoin)
    case Result(i) => ResultOf(roots, i)
    case NestedResult(i, j) =>
      (match ResultOf(roots, i)
       case Ok(root) => Ok(NestedOf(root, j))
       case Err(e) => Err(e))
    case Object(id) =>
      if id in input.objectMeta then ObjectInputFromMeta(input, input.objectMeta[id]) else Err(MissingObjectMeta(id))
    case Bool(v) => Ok(PureInput(BoolValue(v)))
    case U64(v) => Ok(PureInput(U64Value(v)))
    case U128(v) => Ok(PureInput(U128Value(v)))
    case Address(s) => if input.parsers.address(s) then Ok(PureInput(AddressValue(s))) else Err(InvalidAddress(s))
    case Pure(s) => MapPureString(input, s)
  }

  /** Amounts must be 64-bit values, or results. */
  function MapSplitAmount(input: BuildInput, roots: Roots, arg: PtbArgument): Mapped {
    match arg
    case U64(v) => Ok(PureInput(U64Value(v)))
    case Pure(s) =>
      (match input.parsers.u64(s)
       case Some(v) => Ok(PureInput(U64Value(v)))
       case None => Err(InvalidSplitAmount))
    case Result(_) => MapArgument(input, roots, arg)
    case NestedResult(_, _) => MapArgument(input, roots, arg)
    case _ => Err(InvalidSplitAmount)
  }

  function Mapper(input: BuildInput, roots: Roots): PtbArgument -> Mapped {
    a => MapArgument(input, roots, a)
  }

  function AmountMapper(input: BuildInput, roots: Roots): PtbArgument -> Mapped {
    a => MapSplitAmount(input, roots, a)
  }

  /** Map every argument; the first failure wins. */
  function Collect(args: seq<PtbArgument>, f: PtbArgument -> Mapped): (r: Models.Result<seq<Argument>, TxBuildError>)
    ensures r.Ok? ==> |r.value| == |args| && forall i :: 0 <= i < |args| ==> f(args[i]) == Ok(r.value[i])
    ensures r.Err? ==> exists i :: 0 <= i < |args| && f(args[i]) == Err(r.error)
  {
    if args == [] then Ok([])
    else
      var front := Collect(args[..|args| - 1], f);
      if front.Err? then front
      else match f(args[|args| - 1])
        case Ok(a) => Ok(front.value + [a])
        case Err(e) => Err(e)
  }

  /** The builder call for one command; the recipient of a transfer is checked before its objects. */
  function Translate(input: BuildInput, roots: Roots, cmd: PtbCommand)
    : Models.Result<BuilderCommand, TxBuildError>
  {
    var map1 := Mapper(input, roots);
    match cmd
    case SplitCoins(coin, amounts) =>
      (match map1(coin)
       case Err(e) => Err(e)
       case Ok(c) =>
         match Collect(amounts, AmountMapper(input, roots))
         case Err(e) => Err(e)
         case Ok(vs) => Ok(BuilderSplit(c, vs)))
    case MergeCoins(destination, sources) =>
      (match map1(destination)
       case Err(e) => Err(e)
       case Ok(d) =>
         match Collect(sources, map1)
         case Err(e) => Err(e)
         case Ok(vs) => Ok(BuilderMerge(d, vs)))
    case TransferObjects(objects, address) =>
      (match map1(address)
       case Err(e) => Err(e)
       case Ok(a) =>
         match Collect(objects, map1)
         case Err(e) => Err(e)
         case Ok(vs) => Ok(BuilderTransfer(vs, a)))
    case MoveCall(target, types, arguments) =>
      if !input.parsers.target(target) then Err(InvalidTarget(target))
      else (match FirstBadType(input, types)
        case Some(t) => Err(InvalidTypeTag(t))
        case None =>
          match Collect(arguments, map1)
          case Err(e) => Err(e)
          case Ok(vs) => Ok(BuilderCall(target, types, vs)))
    case MakeMoveVec(typeTag, elements) =>
      if typeTag.Some? && !input.parsers.typeTag(typeTag.value) then Err(InvalidTypeTag(typeTag.value))
      else match Collect(elements, map1)
        case Err(e) => Err(e)
        case Ok(vs) => Ok(BuilderVec(typeTag, vs))
  }

  function FirstBadType(input: BuildInput, types: seq<Token>): (r: Option<Token>)
    ensures r.Some? ==> !input.parsers.typeTag(r.value)
  {
    if types == [] then None
    else if !input.parsers.typeTag(types[0]) then Some(types[0])
    else FirstBadType(input, types[1..])
  }

  /** What later commands may refer to: the first part of a split, the whole result of a call or vector. */
  function RootOf(call: BuilderCommand, index: nat): Option<Argument> {
    match call
    case BuilderSplit(_, amounts) => if amounts == [] then None else Some(PartOf(index, 0))
    case BuilderMerge(_, _) => None
    case BuilderTransfer(_, _) => None
    case BuilderCall(_, _, _) => Some(WholeResult(index))
    case BuilderVec(_, _) => Some(WholeResult(index))
  }

  method ApplyCommand(builder: TransactionBuilder, cmd: PtbCommand, input: BuildInput, tracker: ResultTracker)
    returns (failure: Option<TxBuildError>)
    modifies builder, tracker
    ensures match Translate(input, old(tracker.roots), cmd)
      case Err(e) => failure == Some(e) && builder.calls == old(builder.calls) && tracker.roots == old(tracker.roots)
      case Ok(call) =>
        && failure == None && builder.calls == old(builder.calls) + [call]
        && tracker.roots == old(tracker.roots) + [RootOf(call, |old(builder.calls)|)]
  {
    match Translate(input, tracker.roots, cmd)
    case Err(e) =>
      return Some(e);
    case Ok(call) =>
      var index := builder.Add(call);
      tracker.PushRoot(RootOf(call, index));
      return None;
  }

  /** Every command in turn, stopping at the first failure. A plan that executes is translated call for
      call, and only the outside world can stop it. */
  method ApplyCommands(commands: seq<PtbCommand>, input: BuildInput, ghost chain: Chain)
    returns (r: Models.Result<seq<BuilderCommand>, TxBuildError>)
    ensures Executable(chain, commands) && Covered(input, commands) ==>
        if r.Ok? then FaithfulCalls(input, commands, r.value) else OutsideFault(input, r.error)
  {
    var builder := new TransactionBuilder();
    var tracker := new ResultTracker();
    ghost var m := EMPTY_MACHINE;
    for n := 0 to |commands|
      invariant fresh(builder) && fresh(tracker)
      invariant Executable(chain, commands) && Covered(input, commands) ==>
          Mirrored(chain, input, commands, n, m, builder.calls, tracker.roots)
    {
      ghost var calls, roots := builder.calls, tracker.roots;
      var failure := ApplyCommand(builder, commands[n], input, tracker);
      if Executable(chain, commands) && Covered(input, commands) {
        CommandMirrored(chain, input, commands, n, m, calls, roots);
        m := Step(chain, m, commands[n]).value;
      }
      if failure.Some? {
        return Err(failure.value);
      }
    }
    r := Ok(builder.calls);
  }

  // ----- collecting the objects to look up

  /** Objects, and texts that look like object ids. */
  function ReferencedId(arg: PtbArgument): Option<string> {
    match arg
    case Object(id) => Some(id)
    case Pure(s) => if "0x" <= s && |s| >= 3 then Some(s) else None
    case _ => None
  }

  function ArgumentsOf(cmd: PtbCommand): seq<PtbArgument> {
    match cmd
    case SplitCoins(coin, amounts) => [coin] + amounts
    case MergeCoins(destination, sources) => [destination] + sources
    case TransferObjects(objects, address) => objects + [address]
    case MoveCall(_, _, arguments) => arguments
    case MakeMoveVec(_, elements) => elements
  }

  ghost predicate Mentions(cmd: PtbCommand, id: string) {
    RefersTo(ArgumentsOf(cmd), id)
  }

  ghost predicate RefersTo(args: seq<PtbArgument>, id: string) {
    exists k :: 0 <= k < |args| && ReferencedId(args[k]) == Some(id)
  }

  /** Exactly the ids some argument of some command refers to. */
  method CollectObjectIds(commands: seq<PtbCommand>) returns (out: set<string>)
    ensures forall id :: id in out <==> exists n :: 0 <= n < |commands| && Mentions(commands[n], id)
  {
    out := {};
    for n := 0 to |commands|
      invariant forall id :: id in out <==> exists i :: 0 <= i < n && Mentions(commands[i], id)
    {
      out := CollectFromArgs(ArgumentsOf(commands[n]), out);
    }
  }

  method CollectFromArgs(args: seq<PtbArgument>, before: set<string>) returns (out: set<string>)
    ensures forall id :: id in out <==> id in before || RefersTo(args, id)
  {
    out := before;
    for k := 0 to |args|
      invariant forall id :: id in out <==> id in before || RefersTo(args[..k], id)
    {
      assert args[..k + 1] == args[..k] + [args[k]];
      match ReferencedId(args[k])
      case Some(id) =>
        assert args[..k + 1][k] == args[k];
        out := out + {id};
      case None =>
    }
    assert args[..|args|] == args;
  }

  // ----- what a stage-one plan guarantees

  /** The plan executes, so everything it refers to has been produced before. */
  ghost predicate Executable(chain: Chain, commands: seq<PtbCommand>) {
    Exec(chain, EMPTY_MACHINE, commands).Some?
  }

  /** Metadata is at hand for every object the plan mentions. */
  ghost predicate Covered(input: BuildInput, commands: seq<PtbCommand>) {
    forall n :: 0 <= n < |commands| ==> CommandCovered(input, commands[n])
  }

  ghost predicate CommandCovered(input: BuildInput, cmd: PtbCommand) {
    forall id :: Mentions(cmd, id) ==> id in input.objectMeta
  }

  /** The builder argument names what the plan's argument names. */
  ghost predicate Denotes(input: BuildInput, arg: PtbArgument, a: Argument) {
    match arg
    case GasCoin => a == Gas
    case InputCoin => false
    case Result(i) => a == WholeResult(i) || a == PartOf(i, 0)
    case NestedResult(i, j) => a == PartOf(i, j)
    case Pure(_) => false
    case Object(id) => id in input.objectMeta && Describes(a, input.objectMeta[id])
    case Bool(v) => a == PureInput(BoolValue(v))
    case U64(v) => a == PureInput(U64Value(v))
    case U128(v) => a == PureInput(U128Value(v))
    case Address(s) => a == PureInput(AddressValue(s))
  }

  /** An object argument carries the identity, version and ownership found in the metadata. */
  predicate Describes(a: Argument, meta: ObjectMeta) {
    && a.ObjectArg?
    && match meta.ownerKind
       case Owned => a.object_ == OwnedInput(meta.objectId, meta.version, meta.digest)
       case Immutable => a.object_ == ImmutableInput(meta.objectId, meta.version, meta.digest)
       case Shared =>
         meta.initialSharedVersion.Some?
         && a.object_ == SharedInput(meta.objectId, meta.initialSharedVersion.value, meta.mutable)
  }

  ghost predicate DenoteAll(input: BuildInput, args: seq<PtbArgument>, vs: seq<Argument>) {
    |args| == |vs| && forall i :: 0 <= i < |args| ==> Denotes(input, args[i], vs[i])
  }

  /** The call does what the command says, argument by argument. */
  ghost predicate Faithful(input: BuildInput, cmd: PtbCommand, call: BuilderCommand) {
    match cmd
    case SplitCoins(coin, amounts) =>
      call.BuilderSplit? && Denotes(input, coin, call.coin) && DenoteAll(input, amounts, call.amounts)
    case MergeCoins(destination, sources) =>
      && call.BuilderMerge? && Denotes(input, destination, call.destination)
      && DenoteAll(input, sources, call.sources)
    case TransferObjects(objects, address) =>
      && call.BuilderTransfer? && DenoteAll(input, objects, call.objects)
      && Denotes(input, address, call.address)
    case MoveCall(target, types, arguments) =>
      && call.BuilderCall? && call.target == target && call.typeArguments == types
      && DenoteAll(input, arguments, call.arguments)
    case MakeMoveVec(typeTag, elements) =>
      call.BuilderVec? && call.typeTag == typeTag && DenoteAll(input, elements, call.elements)
  }

  ghost predicate FaithfulCalls(input: BuildInput, commands: seq<PtbCommand>, calls: seq<BuilderCommand>) {
    |calls| == |commands| && forall i :: 0 <= i < |calls| ==> Faithful(input, commands[i], calls[i])
  }

  /** One root per executed command; commands with results have one that names them. */
  ghost predicate RootsMatch(roots: Roots, slots: Results) {
    && |roots| == |slots|
    && forall i :: 0 <= i < |slots| && slots[i] != [] ==>
        roots[i] == Some(WholeResult(i)) || roots[i] == Some(PartOf(i, 0))
  }

  /** After `n` commands the builder holds their translations and the tracker their roots. */
  ghost predicate Mirrored(
    chain: Chain, input: BuildInput, commands: seq<PtbCommand>, n: nat, m: Machine,
    calls: seq<BuilderCommand>, roots: Roots)
    requires n <= |commands|
  {
    && Exec(chain, m, commands[n..]).Some? && |m.slots| == n
    && RootsMatch(roots, m.slots) && FaithfulCalls(input, commands[..n], calls)
  }

  lemma CommandMirrored(
    chain: Chain, input: BuildInput, commands: seq<PtbCommand>, n: nat, m: Machine,
    calls: seq<BuilderCommand>, roots: Roots)
    requires n < |commands| && Covered(input, commands) && Mirrored(chain, input, commands, n, m, calls, roots)
    ensures Step(chain, m, commands[n]).Some?
    ensures match Translate(input, roots, commands[n])
      case Err(e) => OutsideFault(input, e)
      case Ok(call) =>
        Mirrored(chain, input, commands, n + 1, Step(chain, m, commands[n]).value,
                 calls + [call], roots + [RootOf(call, |calls|)])
  {
    assert commands[n..][0] == commands[n] && commands[n..][1..] == commands[n + 1..];
    CommandTranslated(chain, input, m, commands[n], roots);
    StepResolves(chain, m, commands[n]);
    assert commands[..n + 1] == commands[..n] + [commands[n]];
  }

  /** Translating a command that executes. */
  lemma CommandTranslated(chain: Chain, input: BuildInput, m: Machine, cmd: PtbCommand, roots: Roots)
    requires Step(chain, m, cmd).Some? && RootsMatch(roots, m.slots) && CommandCovered(input, cmd)
    ensures match Translate(input, roots, cmd)
      case Err(e) => OutsideFault(input, e)
      case Ok(call) =>
        && Faithful(input, cmd, call)
        && RootsMatch(roots + [RootOf(call, |roots|)], Step(chain, m, cmd).value.slots)
  {
    StepResolves(chain, m, cmd);
    ArgumentsMapped(input, m.slots, cmd, roots);
    AssembledFaithfully(input, roots, cmd);
    var translated := Translate(input, roots, cmd);
    if translated.Ok? {
      RootAdded(input, roots, m.slots, cmd, translated.value, Step(chain, m, cmd).value.slots);
    }
  }

  lemma ArgumentsMapped(input: BuildInput, slots: Results, cmd: PtbCommand, roots: Roots)
    requires RootsMatch(roots, slots) && CommandCovered(input, cmd) && AllResolvable(slots, ArgumentsOf(cmd))
    ensures forall k :: 0 <= k < |ArgumentsOf(cmd)| ==>
        IsMapped(input, ArgumentsOf(cmd)[k], MapArgument(input, roots, ArgumentsOf(cmd)[k]))
  {
    forall k | 0 <= k < |ArgumentsOf(cmd)|
      ensures IsMapped(input, ArgumentsOf(cmd)[k], MapArgument(input, roots, ArgumentsOf(cmd)[k]))
    {
      var arg := ArgumentsOf(cmd)[k];
      assert arg.Object? ==> Mentions(cmd, arg.id);
      ArgumentMapped(input, roots, slots, arg);
    }
  }

  /** A faithful call has a root whenever its command has results. */
  lemma RootAdded(
    input: BuildInput, roots: Roots, slots: Results, cmd: PtbCommand, call: BuilderCommand, after: Results)
    requires RootsMatch(roots, slots) && Faithful(input, cmd, call) && OneMoreRow(slots, after)
    requires cmd.SplitCoins? ==> |after[|slots|]| == |cmd.amounts|
    requires cmd.MergeCoins? || cmd.TransferObjects? ==> after[|slots|] == []
    ensures RootsMatch(roots + [RootOf(call, |roots|)], after)
  {
    forall i | 0 <= i < |slots| && after[i] != []
      ensures roots[i] == Some(WholeResult(i)) || roots[i] == Some(PartOf(i, 0))
    {
      assert |slots[i]| == |after[i]|;
    }
  }

  /** Mapped to what it names, or stopped by the outside world. */
  ghost predicate IsMapped(input: BuildInput, arg: PtbArgument, r: Mapped) {
    if r.Ok? then Denotes(input, arg, r.value) else OutsideFault(input, r.error)
  }

  lemma ArgumentMapped(input: BuildInput, roots: Roots, slots: Results, arg: PtbArgument)
    requires RootsMatch(roots, slots) && Resolvable(slots, arg)
    requires arg.Object? ==> arg.id in input.objectMeta
    ensures IsMapped(input, arg, MapArgument(input, roots, arg))
  {
  }

  lemma CollectedFaithfully(input: BuildInput, args: seq<PtbArgument>, f: PtbArgument -> Mapped)
    requires forall k :: 0 <= k < |args| ==> IsMapped(input, args[k], f(args[k]))
    ensures var r := Collect(args, f);
      if r.Ok? then DenoteAll(input, args, r.value) else OutsideFault(input, r.error)
  {
  }

  /** Translated faithfully, or stopped by the outside world. */
  ghost predicate Assembled(input: BuildInput, roots: Roots, cmd: PtbCommand) {
    match Translate(input, roots, cmd)
    case Err(e) => OutsideFault(input, e)
    case Ok(call) => Faithful(input, cmd, call)
  }

  ghost predicate AllMapped(input: BuildInput, roots: Roots, args: seq<PtbArgument>) {
    forall k :: 0 <= k < |args| ==> IsMapped(input, args[k], MapArgument(input, roots, args[k]))
  }

  lemma SplitAssembled(input: BuildInput, roots: Roots, coin: PtbArgument, amounts: seq<PtbArgument>)
    requires IsMapped(input, coin, MapArgument(input, roots, coin))
    requires forall k :: 0 <= k < |amounts| ==> amounts[k].U64?
    ensures Assembled(input, roots, SplitCoins(coin, amounts))
  {
    CollectedFaithfully(input, amounts, AmountMapper(input, roots));
  }

  lemma MergeAssembled(input: BuildInput, roots: Roots, destination: PtbArgument, sources: seq<PtbArgument>)
    requires IsMapped(input, destination, MapArgument(input, roots, destination)) && AllMapped(input, roots, sources)
    ensures Assembled(input, roots, MergeCoins(destination, sources))
  {
    CollectedFaithfully(input, sources, Mapper(input, roots));
  }

  lemma TransferAssembled(input: BuildInput, roots: Roots, objects: seq<PtbArgument>, address: PtbArgument)
    requires AllMapped(input, roots, objects) && IsMapped(input, address, MapArgument(input, roots, address))
    ensures Assembled(input, roots, TransferObjects(objects, address))
  {
    CollectedFaithfully(input, objects, Mapper(input, roots));
  }

  lemma CallAssembled(input: BuildInput, roots: Roots, cmd: PtbCommand)
    requires cmd.MoveCall? && AllMapped(input, roots, cmd.arguments)
    ensures Assembled(input, roots, cmd)
  {
    CollectedFaithfully(input, cmd.arguments, Mapper(input, roots));
  }

  lemma VectorAssembled(input: BuildInput, roots: Roots, cmd: PtbCommand)
    requires cmd.MakeMoveVec? && AllMapped(input, roots, cmd.elements)
    ensures Assembled(input, roots, cmd)
  {
    CollectedFaithfully(input, cmd.elements, Mapper(input, roots));
  }

  lemma AssembledFaithfully(input: BuildInput, roots: Roots, cmd: PtbCommand)
    requires AllMapped(input, roots, ArgumentsOf(cmd))
    requires cmd.SplitCoins? ==> forall k :: 0 <= k < |cmd.amounts| ==> cmd.amounts[k].U64?
    ensures Assembled(input, roots, cmd)
  {
    var args := ArgumentsOf(cmd);
    match cmd
    case SplitCoins(coin, amounts) =>
      assert args[0] == coin;
      SplitAssembled(input, roots, coin, amounts);
    case MergeCoins(destination, sources) =>
      assert args[0] == destination && forall i :: 0 <= i < |sources| ==> sources[i] == args[i + 1];
      MergeAssembled(input, roots, destination, sources);
    case TransferObjects(objects, address) =>
      assert args[|objects|] == address && forall i :: 0 <= i < |objects| ==> objects[i] == args[i];
      TransferAssembled(input, roots, objects, address);
    case MoveCall(_, _, _) =>
      CallAssembled(input, roots, cmd);
    case MakeMoveVec(_, _) =>
      VectorAssembled(input, roots, cmd);
  }

  /** The argument can be resolved against these rows of results. */
  predicate Resolvable(slots: Results, arg: PtbArgument) {
    match arg
    case InputCoin => false
    case Pure(_) => false
    case Result(i) => i < |slots| && |slots[i]| == 1
    case NestedResult(i, j) => i < |slots| && j < |slots[i]|
    case _ => true
  }

  ghost predicate AllResolvable(slots: Results, args: seq<PtbArgument>) {
    forall i :: 0 <= i < |args| ==> Resolvable(slots, args[i])
  }

  ghost predicate SameShape(a: Results, b: Results) {
    |a| == |b| && forall i :: 0 <= i < |a| ==> |a[i]| == |b[i]|
  }

  lemma {:induction false} DeliverResolves(m: Machine, args: seq<PtbArgument>, owner: string)
    requires Deliver(m, args, owner).Some?
    ensures AllResolvable(m.slots, args) && SameShape(m.slots, Deliver(m, args, owner).value.slots)
    decreases |args|
  {
    if args != [] {
      var (r, m') := Take(m, args[0]);
      var m'' := m'.(delivered := m'.delivered + [(owner, r.value)]);
      DeliverResolves(m'', args[1..], owner);
      assert forall i :: 1 <= i < |args| ==> args[i] == args[1..][i - 1];
    }
  }

  lemma {:induction false} TakeCoinsResolves(m: Machine, args: seq<PtbArgument>, t: Token)
    requires TakeCoins(m, args, t).Some?
    ensures AllResolvable(m.slots, args) && SameShape(m.slots, TakeCoins(m, args, t).value.slots)
    decreases |args|
  {
    if args != [] {
      var (r, m') := Take(m, args[0]);
      TakeCoinsResolves(m', args[1..], t);
      assert forall i :: 1 <= i < |args| ==> args[i] == args[1..][i - 1];
    }
  }

  lemma {:induction false} MergeResolves(chain: Chain, m: Machine, t: Token, args: seq<PtbArgument>)
    requires MergeInto(chain, m, t, args).Some?
    ensures AllResolvable(m.slots, args) && MergeInto(chain, m, t, args).value.slots == m.slots
    decreases |args|
  {
    if args != [] {
      var m' := m.(merged := m.merged + {args[0].id});
      MergeResolves(chain, m', t, args[1..]);
      assert forall i :: 1 <= i < |args| ==> args[i] == args[1..][i - 1];
    }
  }

  /** `after` extends `before` by the results of one command. */
  ghost predicate OneMoreRow(before: Results, after: Results) {
    |after| == |before| + 1 && forall i :: 0 <= i < |before| ==> |after[i]| == |before[i]|
  }

  /** A command that executes has only resolvable arguments and plain amounts. */
  lemma StepResolves(chain: Chain, m: Machine, cmd: PtbCommand)
    requires Step(chain, m, cmd).Some?
    ensures AllResolvable(m.slots, ArgumentsOf(cmd))
    ensures cmd.SplitCoins? ==> forall i :: 0 <= i < |cmd.amounts| ==> cmd.amounts[i].U64?
    ensures OneMoreRow(m.slots, Step(chain, m, cmd).value.slots)
    ensures var row := Step(chain, m, cmd).value.slots[|m.slots|];
      && (cmd.SplitCoins? ==> |row| == |cmd.amounts|)
      && (cmd.MergeCoins? || cmd.TransferObjects? ==> row == [])
  {
    match cmd
    case SplitCoins(coin, amounts) =>
    case MergeCoins(destination, sources) =>
      var t := CoinType(chain, m, destination).value;
      MergeResolves(chain, m, t, sources);
    case TransferObjects(objects, address) =>
      DeliverResolves(m, objects, address.address);
    case MakeMoveVec(typeTag, elements) =>
      TakeCoinsResolves(m, elements, Peek(m, elements[0]).value.t);
    case MoveCall(target, types, args) =>
      CallResolves(chain, m, target, types, args);
  }

  lemma CallResolves(chain: Chain, m: Machine, f: MoveFunction, types: seq<Token>, args: seq<PtbArgument>)
    requires Call(chain, m, f, types, args).Some?
    ensures AllResolvable(m.slots, args) && OneMoreRow(m.slots, Call(chain, m, f, types, args).value.slots)
  {
    match f
    case ClmmRepayFlashSwap(package) =>
      RepayResolves(m, Clmm(package), args[1].id, types[0], types[1], args[2], args[3], args[4]);
    case MomentumRepayFlashSwap =>
      RepayResolves(m, Lender.Momentum, args[0].id, types[0], types[1], args[2], args[3], args[1]);
    case TurbosSwapAB =>
      TurbosResolves(chain, m, types, args, true);
    case TurbosSwapBA =>
      TurbosResolves(chain, m, types, args, false);
    case _ =>
      OtherCallResolves(chain, m, f, types, args);
  }

  lemma OtherCallResolves(chain: Chain, m: Machine, f: MoveFunction, types: seq<Token>, args: seq<PtbArgument>)
    requires Call(chain, m, f, types, args).Some?
    requires !f.ClmmRepayFlashSwap? && !f.MomentumRepayFlashSwap? && !f.TurbosSwapAB? && !f.TurbosSwapBA?
    ensures AllResolvable(m.slots, args) && OneMoreRow(m.slots, Call(chain, m, f, types, args).value.slots)
  {
  }

  lemma RepayResolves(
    m: Machine, lender: Lender, pool: string, a: Token, b: Token,
    balanceA: PtbArgument, balanceB: PtbArgument, receipt: PtbArgument)
    requires Repay(m, lender, pool, a, b, balanceA, balanceB, receipt).Some?
    ensures Resolvable(m.slots, balanceA) && Resolvable(m.slots, balanceB) && Resolvable(m.slots, receipt)
    ensures OneMoreRow(m.slots, Repay(m, lender, pool, a, b, balanceA, balanceB, receipt).value.slots)
  {
  }

  lemma TurbosResolves(chain: Chain, m: Machine, types: seq<Token>, args: seq<PtbArgument>, aToB: bool)
    requires TurbosSwap(chain, m, types, args, aToB).Some?
    ensures AllResolvable(m.slots, args)
    ensures OneMoreRow(m.slots, TurbosSwap(chain, m, types, args, aToB).value.slots)
  {
  }
}
