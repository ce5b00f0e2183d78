/** The IL lifter of architecture.py:69-102 and 211-289: conditional
    branches become an `if` over two labels, unconditional branches a jump,
    and every other instruction one operation over its source operand,
    written back to its destination for the read-modify-write mnemonics. */
module Lifter {
  import opened Wrappers
  import opened Instructions
  import opened Decoder
  import opened IL

  /** The names the lifter imports without this model seeing their
      definitions: the opcodes of dual-accumulator instructions, the
      mnemonics that load two bytes, and the mnemonics that write their
      result back to their operand. */
  datatype Config = Config(dual: set<Byte>, biggerLoads: set<Mnemonic>, writesBack: set<Mnemonic>)

  /** A decoded instruction the lifter can translate: its length fits its
      mode, an accumulator instruction names its register, and every mode
      with an operand, as well as every branch, resolved a value. */
  ghost predicate Liftable(x: Decoded)
  {
    && LengthFitsAddressMode(x.desc)
    && (x.desc.mode == Accumulator ==> x.desc.operand.Some?)
    && (x.desc.mode !in {Accumulator, Inherent} ==> x.resolved.Some?)
    && (x.desc.cls in {ConditionalBranch, UnconditionalBranch} ==> x.resolved.Some?)
  }

  /** Every instruction the decoder accepts can be lifted. */
  lemma DecodedIsLiftable(data: seq<Byte>, addr: int, dual: set<Byte>)
    requires Decodable(data) && Decode(data, addr, dual).Success?
    ensures Liftable(Decode(data, addr, dual).value)
  {
    var d := Lookup(data[0], dual).value;
    DescriptorShape(data[0], dual);
    assert Decode(data, addr, dual) == Resolve(d, data, addr);
    if d.cls in {ConditionalBranch, UnconditionalBranch} {
      ControlTransfersHaveTargets(data[0], dual);
    }
  }

  /** A write-back mnemonic needs a destination, which immediate and
      inherent modes do not bind. */
  predicate HasDestination(x: Decoded, cfg: Config)
  {
    x.desc.mnemonic in cfg.writesBack ==> x.desc.mode !in {Immediate, Inherent}
  }

  /** The load width: two bytes for the bigger loads, one otherwise. */
  function LoadSize(m: Mnemonic, cfg: Config): (w: nat)
    ensures w == 1 || w == 2
    ensures w == 2 <==> m in cfg.biggerLoads
  {
    if m in cfg.biggerLoads then 2 else 1
  }

  /** The memory location an instruction's mode addresses: the index
      register plus the offset, a direct or extended address, or an
      absolute relative target. */
  function Destination(x: Decoded): (r: Option<Expr>)
    requires Liftable(x)
    ensures r.Some? <==> x.desc.mode in {Indexed, Direct, Extended, Relative}
  {
    match x.desc.mode
    case Indexed => Some(Add(2, Reg(2, IX), Const(1, x.resolved.value)))
    case Direct => Some(Const(x.desc.length - 1, x.resolved.value))
    case Extended => Some(Const(x.desc.length - 1, x.resolved.value))
    case Relative => Some(Const(2, x.resolved.value))
    case Immediate => None
    case Accumulator => None
    case Inherent => None
  }

  /** The source operand: the accumulator (by name for PUL), a load from the
      destination, the immediate constant, or nothing. */
  function SourceOperand(x: Decoded, cfg: Config): (r: Operand)
    requires Liftable(x)
    ensures r.NoOperand? <==> x.desc.mode == Inherent
    ensures r.NameOperand? <==> x.desc.mode == Accumulator && x.desc.mnemonic == PUL
    ensures Destination(x).Some? ==> r == ExprOperand(Load(LoadSize(x.desc.mnemonic, cfg), Destination(x).value))
  {
    match x.desc.mode
    case Accumulator =>
      if x.desc.mnemonic == PUL then NameOperand(x.desc.operand.value)
      else ExprOperand(Reg(1, x.desc.operand.value))
    case Immediate => ExprOperand(Const(x.desc.length - 1, x.resolved.value))
    case Inherent => NoOperand
    case Indexed => ExprOperand(Load(LoadSize(x.desc.mnemonic, cfg), Destination(x).value))
    case Direct => ExprOperand(Load(LoadSize(x.desc.mnemonic, cfg), Destination(x).value))
    case Extended => ExprOperand(Load(LoadSize(x.desc.mnemonic, cfg), Destination(x).value))
    case Relative => ExprOperand(Load(LoadSize(x.desc.mnemonic, cfg), Destination(x).value))
  }

  /** The one operation the generic path appends. */
  function Operation(x: Decoded, cfg: Config): (r: Expr)
    requires Liftable(x) && HasDestination(x, cfg)
    ensures r.Op? <==> x.desc.mnemonic !in cfg.writesBack
  {
    var op := Op(x.desc.mnemonic, SourceOperand(x, cfg), if x.desc.cls == Dual then x.desc.operand else None);
    if x.desc.mnemonic !in cfg.writesBack then op
    else if x.desc.mode == Accumulator then SetReg(1, x.desc.operand.value, op)
    else Store(1, Destination(x).value, op)
  }

  /** The generic operation applies the instruction's own mnemonic to its
      source operand, passes the accumulator as a second operand exactly for
      dual instructions, and is wrapped in a write-back exactly for the
      write-back mnemonics. */
  lemma OperationShape(x: Decoded, cfg: Config)
    requires Liftable(x) && HasDestination(x, cfg)
    ensures var r := Operation(x, cfg);
      && (x.desc.mnemonic in cfg.writesBack <==> !r.Op?)
      && (r.SetReg? || r.Store? || r.Op?)
      && var op := if r.Op? then r else r.src;
      && op.Op? && op.mnemonic == x.desc.mnemonic && op.operand == SourceOperand(x, cfg)
      && (op.second.Some? <==> x.desc.cls == Dual && x.desc.operand.Some?)
      && (op.second.Some? ==> op.second == x.desc.operand)
  {
  }

  /** `_handle_jump`: a goto when the target has a label, a jump to the
      constant target otherwise. */
  function JumpTo(labels: map<int, Label>, target: int): (r: Expr)
    ensures r.Goto? <==> target in labels
    ensures r.Goto? ==> r.l == labels[target]
    ensures r.Jump? ==> r.target == Const(2, target)
  {
    if target in labels then Goto(labels[target]) else Jump(Const(2, target))
  }

  /** What one lifting step appends and the label counter afterwards. */
  datatype Emission = Emission(items: seq<Item>, next: nat)

  /** The label of `addr`: the known one, or the next fresh label. */
  function LabelOrFresh(labels: map<int, Label>, next: nat, addr: int): Label
  {
    if addr in labels then labels[addr] else Label(next)
  }

  /** The counter after allocating a label for `addr` if it has none. */
  function AfterAllocation(labels: map<int, Label>, next: nat, addr: int): nat
  {
    if addr in labels then next else next + 1
  }

  /** `_handle_branch`: the true label is looked up or allocated first, then
      the false label at the next instruction; the `if` is appended, then a
      fresh true label is placed before a jump to the target, and a fresh
      false label is placed last. */
  function BranchEmission(labels: map<int, Label>, next: nat, current: int, m: Mnemonic, length: nat, target: int): (em: Emission)
    ensures |em.items| == 1 + (if target in labels then 0 else 2) + (if current + length in labels then 0 else 1)
  {
    var fallThrough := current + length;
    var t := LabelOrFresh(labels, next, target);
    var afterTrue := AfterAllocation(labels, next, target);
    var f := LabelOrFresh(labels, afterTrue, fallThrough);
    Emission(
      [Append(If(Op(m, NoOperand, None), t, f))]
        + (if target in labels then [] else [Mark(t), Append(Jump(Const(2, target)))])
        + (if fallThrough in labels then [] else [Mark(f)]),
      AfterAllocation(labels, afterTrue, fallThrough))
  }

  /** Every known label is older than the next fresh one. */
  predicate LabelsBelow(labels: map<int, Label>, next: nat)
  {
    forall a | a in labels :: labels[a].id < next
  }

  /** A label at or past the counter belongs to no known address. */
  lemma FreshLabelUnknown(labels: map<int, Label>, next: nat, l: Label)
    requires LabelsBelow(labels, next) && l.id >= next
    ensures l !in labels.Values
  {
    forall a | a in labels
      ensures labels[a] != l
    {
    }
  }

  /** The branch appends exactly one `if`, first, over the true and false
      labels. */
  lemma BranchEmitsOneIf(labels: map<int, Label>, next: nat, current: int, m: Mnemonic, length: nat, target: int)
    ensures var em := BranchEmission(labels, next, current, m, length, target);
      && |em.items| == 1 + (if target in labels then 0 else 2) + (if current + length in labels then 0 else 1)
      && em.items[0] == Append(If(Op(m, NoOperand, None),
           LabelOrFresh(labels, next, target),
           LabelOrFresh(labels, AfterAllocation(labels, next, target), current + length)))
      && forall k | 1 <= k < |em.items| :: !IsIf(em.items[k])
  {
  }

  /** A label the branch allocates is new: distinct from every known label
      and from the other allocated one; the counter advances once per
      allocation. */
  lemma BranchLabelsFresh(labels: map<int, Label>, next: nat, current: int, m: Mnemonic, length: nat, target: int)
    requires LabelsBelow(labels, next)
    ensures var em := BranchEmission(labels, next, current, m, length, target);
      var t := LabelOrFresh(labels, next, target);
      var f := LabelOrFresh(labels, AfterAllocation(labels, next, target), current + length);
      && (target !in labels ==> t !in labels.Values && t.id >= next)
      && (current + length !in labels ==> f !in labels.Values && f.id >= next)
      && (target !in labels || current + length !in labels ==> t != f)
      && em.next == next + (if target in labels then 0 else 1) + (if current + length in labels then 0 else 1)
      && LabelsBelow(labels, em.next)
  {
    var t := LabelOrFresh(labels, next, target);
    var f := LabelOrFresh(labels, AfterAllocation(labels, next, target), current + length);
    if target !in labels {
      FreshLabelUnknown(labels, next, t);
    }
    if current + length !in labels {
      FreshLabelUnknown(labels, next, f);
    }
  }

  /** The branch places exactly the labels it allocated, each once. */
  lemma BranchMarksFreshLabels(labels: map<int, Label>, next: nat, current: int, m: Mnemonic, length: nat, target: int)
    requires LabelsBelow(labels, next)
    ensures var em := BranchEmission(labels, next, current, m, length, target);
      var t := LabelOrFresh(labels, next, target);
      var f := LabelOrFresh(labels, AfterAllocation(labels, next, target), current + length);
      && (forall l :: Mark(l) in em.items <==>
            (l == t && target !in labels) || (l == f && current + length !in labels))
      && (forall j, k | 0 <= j < k < |em.items| && em.items[j].Mark? && em.items[k].Mark? ::
            em.items[j].l != em.items[k].l)
  {
    var em := BranchEmission(labels, next, current, m, length, target);
    var t := LabelOrFresh(labels, next, target);
    var f := LabelOrFresh(labels, AfterAllocation(labels, next, target), current + length);
    BranchLabelsFresh(labels, next, current, m, length, target);
    forall l
      ensures Mark(l) in em.items <==> (l == t && target !in labels) || (l == f && current + length !in labels)
    {
      if Mark(l) in em.items {
        var k :| 0 <= k < |em.items| && em.items[k] == Mark(l);
      }
    }
  }

  /** A fall-through without a label gets its fresh label placed last,
      after the `if` and the true label's jump. */
  lemma FallThroughLabelLast(labels: map<int, Label>, next: nat, current: int, m: Mnemonic, length: nat, target: int)
    requires current + length !in labels
    ensures var em := BranchEmission(labels, next, current, m, length, target);
      |em.items| >= 2
      && em.items[|em.items| - 1] == Mark(LabelOrFresh(labels, AfterAllocation(labels, next, target), current + length))
  {
  }

  /** When both targets have labels, the branch is the `if` alone. */
  lemma KnownTargetsEmitOnlyIf(labels: map<int, Label>, next: nat, current: int, m: Mnemonic, length: nat, target: int)
    requires target in labels && current + length in labels
    ensures BranchEmission(labels, next, current, m, length, target)
      == Emission([Append(If(Op(m, NoOperand, None), labels[target], labels[current + length]))], next)
  {
  }

  /** A target without a label gets a fresh label right after the `if`,
      followed by a jump to the target. */
  lemma UnknownTargetJumps(labels: map<int, Label>, next: nat, current: int, m: Mnemonic, length: nat, target: int)
    requires target !in labels
    ensures var em := BranchEmission(labels, next, current, m, length, target);
      |em.items| >= 3 && em.items[1..3] == [Mark(Label(next)), Append(Jump(Const(2, target)))]
  {
  }

  /** A read-modify-write operation writes its result back where its
      operand came from: the same accumulator, or the same memory
      location it loaded. */
  lemma WriteBackTargetsSource(x: Decoded, cfg: Config)
    requires Liftable(x) && HasDestination(x, cfg) && x.desc.mnemonic in cfg.writesBack
    ensures var r := Operation(x, cfg);
      && (x.desc.mode == Accumulator ==>
            r.SetReg? && r.width == 1 && r.src.Op?
            && r.src.operand in {ExprOperand(Reg(1, r.dest)), NameOperand(r.dest)}
            && Some(r.dest) == x.desc.operand)
      && (x.desc.mode != Accumulator ==>
            r.Store? && r.width == 1 && r.src.Op?
            && r.src.operand == ExprOperand(Load(LoadSize(x.desc.mnemonic, cfg), r.address)))
  {
  }

  /** The source operand, mode by mode, in terms of the instruction's
      bytes. */
  ghost predicate OperandFromBytes(s: Operand, x: Decoded, data: seq<Byte>, addr: int, cfg: Config)
  {
    var w := LoadSize(x.desc.mnemonic, cfg);
    match x.desc.mode
    case Indexed => |data| >= 2 && s == ExprOperand(Load(w, Add(2, Reg(2, IX), Const(1, data[1]))))
    case Direct => |data| >= 2 && s == ExprOperand(Load(w, Const(1, data[1])))
    case Extended =>
      && |data| >= 3 && s.ExprOperand? && s.expr.Load? && s.expr.width == w
      && s.expr.address.Const? && s.expr.address.width == 2
      && WordFromBytes(s.expr.address.value, data[1], data[2])
    case Immediate =>
      if x.desc.length == 2 then |data| >= 2 && s == ExprOperand(Const(1, data[1]))
      else
        && |data| >= 3 && s.ExprOperand? && s.expr.Const? && s.expr.width == 2
        && WordFromBytes(s.expr.value, data[1], data[2])
    case Relative => s == ExprOperand(Load(w, Const(2, MaskAddress(addr + 2 + Displacement(data)))))
    case Accumulator =>
      x.desc.operand.Some? &&
      s == (if x.desc.mnemonic == PUL then NameOperand(x.desc.operand.value) else ExprOperand(Reg(1, x.desc.operand.value)))
    case Inherent => s == NoOperand
  }

  /** An operand value resolved from the bytes gives the source operand
      those bytes encode. */
  lemma {:induction false} ResolvedOperand(x: Decoded, data: seq<Byte>, addr: int, cfg: Config)
    requires Liftable(x) && ResolvedFromBytes(x, data, addr)
    ensures OperandFromBytes(SourceOperand(x, cfg), x, data, addr, cfg)
  {
    if x.desc.mode == Relative {
      var v := x.resolved.value;
      var sum := addr + 2 + Displacement(data);
      var k := (sum - v) / AddressSpace;
      assert sum == v + k * AddressSpace;
      MaskOfResidue(sum, k, v);
    }
  }

  /** The operation of every decoded instruction reads the operand its
      bytes encode. */
  lemma DecodedOperand(data: seq<Byte>, addr: int, cfg: Config)
    requires Decodable(data) && Decode(data, addr, cfg.dual).Success?
    ensures var x := Decode(data, addr, cfg.dual).value;
      Liftable(x) && OperandFromBytes(SourceOperand(x, cfg), x, data, addr, cfg)
  {
    DecodedIsLiftable(data, addr, cfg.dual);
    var d := Lookup(data[0], cfg.dual).value;
    assert Decode(data, addr, cfg.dual) == Resolve(d, data, addr);
    ResolvedOperand(Decode(data, addr, cfg.dual).value, data, addr, cfg);
  }

  /** One lifting step for a decoded instruction, with the unconditional
      branch's jump appended. */
  function Lifted(labels: map<int, Label>, next: nat, current: int, x: Decoded, cfg: Config): (em: Emission)
    requires Liftable(x) && HasDestination(x, cfg)
    ensures |em.items| >= 1
    ensures x.desc.cls != ConditionalBranch ==> em.next == next
  {
    match x.desc.cls
    case ConditionalBranch => BranchEmission(labels, next, current, x.desc.mnemonic, x.desc.length, x.resolved.value)
    case UnconditionalBranch => Emission([Append(JumpTo(labels, x.resolved.value))], next)
    case Call => Emission([Append(Operation(x, cfg))], next)
    case Return => Emission([Append(Operation(x, cfg))], next)
    case Dual => Emission([Append(Operation(x, cfg))], next)
    case Other => Emission([Append(Operation(x, cfg))], next)
  }

  /** The lifting step as architecture.py:229-231 writes it: the result of
      `_handle_jump` is dropped, so an unconditional branch appends
      nothing. */
  function LiftedAsWritten(labels: map<int, Label>, next: nat, current: int, x: Decoded, cfg: Config): (em: Emission)
    requires Liftable(x) && HasDestination(x, cfg)
    ensures em.items == [] <==> x.desc.cls == UnconditionalBranch
  {
    if x.desc.cls == UnconditionalBranch then Emission([], next)
    else Lifted(labels, next, current, x, cfg)
  }

  /** Only a conditional branch allocates or places labels, and it emits
      exactly `_handle_branch`'s items; an unconditional branch appends the
      jump `_handle_jump` builds, and every other instruction appends
      exactly its operation. */
  lemma LiftingShape(labels: map<int, Label>, next: nat, current: int, x: Decoded, cfg: Config)
    requires Liftable(x) && HasDestination(x, cfg)
    ensures var em := Lifted(labels, next, current, x, cfg);
      && (x.desc.cls != ConditionalBranch ==> em.next == next && |em.items| == 1 && em.items[0].Append?)
      && (x.desc.cls == UnconditionalBranch ==>
            em.items[0].expr.Goto? || em.items[0].expr == Jump(Const(2, x.resolved.value)))
      && (x.desc.cls == ConditionalBranch ==> |em.items| >= 1 && IsIf(em.items[0]))
      && (x.desc.cls == ConditionalBranch ==>
            em == BranchEmission(labels, next, current, x.desc.mnemonic, x.desc.length, x.resolved.value))
      && (x.desc.cls == UnconditionalBranch ==> em.items == [Append(JumpTo(labels, x.resolved.value))])
      && (x.desc.cls !in {ConditionalBranch, UnconditionalBranch} ==> em.items == [Append(Operation(x, cfg))])
  {
  }

  /** The as-written lifter emits no IL at all for an unconditional branch,
      where the corrected one emits its jump; they agree everywhere else. */
  lemma DroppedJump(labels: map<int, Label>, next: nat, current: int, x: Decoded, cfg: Config)
    requires Liftable(x) && HasDestination(x, cfg)
    ensures x.desc.cls == UnconditionalBranch ==>
      && LiftedAsWritten(labels, next, current, x, cfg).items == []
      && Lifted(labels, next, current, x, cfg).items == [Append(JumpTo(labels, x.resolved.value))]
    ensures x.desc.cls != UnconditionalBranch ==>
      LiftedAsWritten(labels, next, current, x, cfg) == Lifted(labels, next, current, x, cfg)
  {
  }

  /** The outcome of lifting the instruction at the start of a buffer. */
  datatype Lifting = Lifting(length: nat, items: seq<Item>, next: nat)

  /** Write-back mnemonics of the buffer's instruction have a destination. */
  predicate WriteBackOk(data: seq<Byte>, addr: int, cfg: Config)
    requires Decodable(data)
  {
    Decode(data, addr, cfg.dual).Success? ==> HasDestination(Decode(data, addr, cfg.dual).value, cfg)
  }

  /** `get_instruction_low_level_il(data, addr, il)`: nothing when decoding
      fails, otherwise the instruction's length and what it appends. */
  function Lift(labels: map<int, Label>, next: nat, current: int, data: seq<Byte>, addr: int, cfg: Config): (r: Result<Lifting, DecodeError>)
    requires Decodable(data) && WriteBackOk(data, addr, cfg)
    ensures r.Failure? <==> Decode(data, addr, cfg.dual).Failure?
    ensures r.Failure? ==> r.error == Decode(data, addr, cfg.dual).error
    ensures r.Success? ==> r.value.length == Decode(data, addr, cfg.dual).value.desc.length
    ensures r.Success? ==> Liftable(Decode(data, addr, cfg.dual).value)
    ensures r.Success? ==>
      var em := Lifted(labels, next, current, Decode(data, addr, cfg.dual).value, cfg);
      r.value.items == em.items && r.value.next == em.next
  {
    match Decode(data, addr, cfg.dual)
    case Failure(e) => Failure(e)
    case Success(x) =>
      DecodedIsLiftable(data, addr, cfg.dual);
      var em := Lifted(labels, next, current, x, cfg);
      Success(Lifting(x.desc.length, em.items, em.next))
  }

  /** The same with the unconditional branch's jump dropped. */
  function LiftAsWritten(labels: map<int, Label>, next: nat, current: int, data: seq<Byte>, addr: int, cfg: Config): (r: Result<Lifting, DecodeError>)
    requires Decodable(data) && WriteBackOk(data, addr, cfg)
    ensures r.Failure? <==> Decode(data, addr, cfg.dual).Failure?
    ensures r.Failure? ==> r.error == Decode(data, addr, cfg.dual).error
    ensures r.Success? ==> r.value.length == Decode(data, addr, cfg.dual).value.desc.length
    ensures r.Success? ==> Liftable(Decode(data, addr, cfg.dual).value)
    ensures r.Success? ==>
      var em := LiftedAsWritten(labels, next, current, Decode(data, addr, cfg.dual).value, cfg);
      r.value.items == em.items && r.value.next == em.next
  {
    match Decode(data, addr, cfg.dual)
    case Failure(e) => Failure(e)
    case Success(x) =>
      DecodedIsLiftable(data, addr, cfg.dual);
      var em := LiftedAsWritten(labels, next, current, x, cfg);
      Success(Lifting(x.desc.length, em.items, em.next))
  }

  /** BRA -2 at 0x5810 is an endless loop: the classifier reports the
      branch to itself, but the as-written lifter appends nothing, so the
      IL falls through to 0x5812. The corrected lifter jumps back. */
  lemma BranchToSelfDropped(cfg: Config)
    ensures Decodable([0x20, 0xFE])
    ensures LiftAsWritten(map[], 0, 0x5810, [0x20, 0xFE], 0x5810, cfg) == Success(Lifting(2, [], 0))
    ensures Lift(map[], 0, 0x5810, [0x20, 0xFE], 0x5810, cfg)
      == Success(Lifting(2, [Append(Jump(Const(2, 0x5810)))], 0))
  {
    JumpsCoverModes();
    ClassFollowsLists(0x20, cfg.dual);
    var d := Lookup(0x20, cfg.dual).value;
    ResolveRelative(d, [0x20, 0xFE], 0x5810);
    assert Decode([0x20, 0xFE], 0x5810, cfg.dual) == Success(Decoded(d, Some(0x5810)));
  }

  /** The IL function under construction: the labels known for addresses,
      the counter for fresh labels, the address being lifted, and the items
      appended so far. */
  class Builder {
    var labels: map<int, Label>
    var nextLabel: nat
    var currentAddress: int
    var items: seq<Item>

    /** Fresh labels never collide with known ones. */
    ghost predicate Valid()
      reads this
    {
      LabelsBelow(labels, nextLabel)
    }

    constructor(known: map<int, Label>, start: nat, current: int)
      requires LabelsBelow(known, start)
      ensures Valid()
      ensures labels == known && nextLabel == start && currentAddress == current && items == []
    {
      labels := known;
      nextLabel := start;
      currentAddress := current;
      items := [];
    }

    /** `get_label_for_address`. */
    function LabelFor(addr: int): (r: Option<Label>)
      reads this
      ensures r.Some? <==> addr in labels
      ensures r.Some? ==> r.value == labels[addr]
    {
      if addr in labels then Some(labels[addr]) else None
    }

    /** `LowLevelILLabel()`: a label no known address has. */
    method NewLabel() returns (l: Label)
      requires Valid()
      modifies this
      ensures Valid()
      ensures l == Label(old(nextLabel)) && l !in labels.Values
      ensures nextLabel == old(nextLabel) + 1
      ensures labels == old(labels) && currentAddress == old(currentAddress) && items == old(items)
    {
      l := Label(nextLabel);
      FreshLabelUnknown(labels, nextLabel, l);
      nextLabel := nextLabel + 1;
    }

    /** `il.append`. */
    method Append(e: Expr)
      modifies this
      ensures items == old(items) + [Item.Append(e)]
      ensures labels == old(labels) && nextLabel == old(nextLabel) && currentAddress == old(currentAddress)
    {
      items := items + [Item.Append(e)];
    }

    /** `il.mark_label`. */
    method MarkLabel(l: Label)
      modifies this
      ensures items == old(items) + [Mark(l)]
      ensures labels == old(labels) && nextLabel == old(nextLabel) && currentAddress == old(currentAddress)
    {
      items := items + [Mark(l)];
    }

    /** `_handle_jump`, which builds the jump without appending it. */
    function HandleJump(value: int): (e: Expr)
      reads this
      ensures e == JumpTo(labels, value)
    {
      match LabelFor(value)
      case Some(l) => Goto(l)
      case None => Jump(Const(2, value))
    }

    /** `_handle_branch`. */
    method HandleBranch(m: Mnemonic, length: nat, value: int)
      requires Valid()
      modifies this
      ensures Valid()
      ensures labels == old(labels) && currentAddress == old(currentAddress)
      ensures var em := BranchEmission(old(labels), old(nextLabel), currentAddress, m, length, value);
        items == old(items) + em.items && nextLabel == em.next
    {
      var trueLabel := LabelFor(value);
      var indirect: bool;
      var t: Label;
      if trueLabel.None? {
        t := NewLabel();
        indirect := true;
      } else {
        t := trueLabel.value;
        indirect := false;
      }
      var falseLabelFound := true;
      var falseLabel := LabelFor(currentAddress + length);
      var f: Label;
      if falseLabel.None? {
        f := NewLabel();
        falseLabelFound := false;
      } else {
        f := falseLabel.value;
      }
      Append(If(Op(m, NoOperand, None), t, f));
      if indirect {
        MarkLabel(t);
        Append(Jump(Const(2, value)));
      }
      if !falseLabelFound {
        MarkLabel(f);
      }
    }

    /** `get_instruction_low_level_il`, with the unconditional branch's
        jump appended. */
    method LiftInstruction(data: seq<Byte>, addr: int, cfg: Config) returns (length: Option<nat>)
      requires Valid() && Decodable(data) && WriteBackOk(data, addr, cfg)
      modifies this
      ensures Valid()
      ensures labels == old(labels) && currentAddress == old(currentAddress)
      ensures match Lift(old(labels), old(nextLabel), currentAddress, data, addr, cfg)
        case Failure(_) => length.None? && items == old(items) && nextLabel == old(nextLabel)
        case Success(l) => length == Some(l.length) && items == old(items) + l.items && nextLabel == l.next
    {
      var decoded := Decode(data, addr, cfg.dual);
      if decoded.Failure? {
        return None;
      }
      var x := decoded.value;
      DecodedIsLiftable(data, addr, cfg.dual);
      LiftDecoded(x, cfg);
      return Some(x.desc.length);
    }

    /** The body of `get_instruction_low_level_il` after decoding: branches
        go to `_handle_branch` and `_handle_jump`, everything else appends
        its operation. */
    method LiftDecoded(x: Decoded, cfg: Config)
      requires Valid() && Liftable(x) && HasDestination(x, cfg)
      modifies this
      ensures Valid()
      ensures labels == old(labels) && currentAddress == old(currentAddress)
      ensures var em := Lifted(old(labels), old(nextLabel), currentAddress, x, cfg);
        items == old(items) + em.items && nextLabel == em.next
    {
      if x.desc.cls == ConditionalBranch {
        HandleBranch(x.desc.mnemonic, x.desc.length, x.resolved.value);
      } else if x.desc.cls == UnconditionalBranch {
        var e := HandleJump(x.resolved.value);
        Append(e);
      } else {
        AppendOperation(x, cfg);
      }
    }

    /** The generic path: the operand and destination the mode selects, the
        operation built on them, and its write-back when the mnemonic has
        one. */
    method AppendOperation(x: Decoded, cfg: Config)
      requires Liftable(x) && HasDestination(x, cfg)
      modifies this
      ensures items == old(items) + [Item.Append(Operation(x, cfg))]
      ensures labels == old(labels) && nextLabel == old(nextLabel) && currentAddress == old(currentAddress)
    {
      var m := x.desc.mnemonic;
      var loadSize := if m in cfg.biggerLoads then 2 else 1;
      var operand: Operand := NoOperand;
      var destination: Option<Expr> := None;
      if x.desc.mode == Accumulator {
        operand := if m == PUL then NameOperand(x.desc.operand.value) else ExprOperand(Reg(1, x.desc.operand.value));
      } else if x.desc.mode == Indexed {
        destination := Some(Add(2, Reg(2, IX), Const(1, x.resolved.value)));
        operand := ExprOperand(Load(loadSize, destination.value));
      } else if x.desc.mode in {Direct, Extended} {
        destination := Some(Const(x.desc.length - 1, x.resolved.value));
        operand := ExprOperand(Load(loadSize, destination.value));
      } else if x.desc.mode == Immediate {
        operand := ExprOperand(Const(x.desc.length - 1, x.resolved.value));
      } else if x.desc.mode == Relative {
        destination := Some(Const(2, x.resolved.value));
        operand := ExprOperand(Load(loadSize, destination.value));
      }
      var second := if x.desc.cls == Dual then x.desc.operand else None;
      var operation := Op(m, operand, second);
      if m in cfg.writesBack {
        if x.desc.mode == Accumulator {
          operation := SetReg(1, x.desc.operand.value, operation);
        } else {
          operation := Store(1, destination.value, operation);
        }
      }
      Append(operation);
    }
  }
}
