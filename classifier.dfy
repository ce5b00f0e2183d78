/** The control-flow classifier of architecture.py:179-209: the length of an
    instruction and the branch edges its class and address mode announce. */
module Classifier {
  import opened Wrappers
  import opened Instructions
  import opened Decoder

  /** A branch edge, one per BranchType the classifier reports. */
  datatype Edge =
    | TrueBranch(target: int)
    | FalseBranch(target: int)
    | UnconditionalBranch(target: int)
    | CallDestination(target: int)
    | FunctionReturn
    | UnresolvedBranch

  /** What the classifier reports about one instruction. */
  datatype Info = Info(length: nat, branches: seq<Edge>)

  /** The classes whose edges carry a target address. */
  predicate TransfersControl(d: Descriptor)
  {
    d.cls in {ConditionalBranch, InstructionClass.UnconditionalBranch, Call}
  }

  /** A control transfer outside indexed mode has a resolved target. */
  predicate TargetKnown(x: Decoded)
  {
    TransfersControl(x.desc) && x.desc.mode != Indexed ==> x.resolved.Some?
  }

  /** An edge whose target is the resolved operand value. */
  predicate ResolvedEdge(e: Edge)
  {
    e.TrueBranch? || e.UnconditionalBranch? || e.CallDestination?
  }

  /** The edges of a decoded instruction at `addr`. An indexed target lives
      in a register, so it is reported as unresolved; the fall-through of a
      conditional branch is the next address, not masked. */
  function Edges(x: Decoded, addr: int): (r: seq<Edge>)
    requires TargetKnown(x)
    ensures |r| <= 2
    ensures r == [] <==> x.desc.cls in {Dual, Other}
    ensures UnresolvedBranch in r <==> TransfersControl(x.desc) && x.desc.mode == Indexed
    ensures UnresolvedBranch in r ==> r == [UnresolvedBranch]
    ensures forall e | e in r && ResolvedEdge(e) :: x.resolved == Some(e.target)
    ensures FalseBranch(addr + x.desc.length) in r <==> x.desc.cls == ConditionalBranch && x.desc.mode != Indexed
    ensures forall e | e in r && e.FalseBranch? :: e.target == addr + x.desc.length
  {
    match x.desc.cls
    case ConditionalBranch =>
      if x.desc.mode == Indexed then [UnresolvedBranch]
      else [TrueBranch(x.resolved.value), FalseBranch(addr + x.desc.length)]
    case UnconditionalBranch =>
      if x.desc.mode == Indexed then [UnresolvedBranch]
      else [Edge.UnconditionalBranch(x.resolved.value)]
    case Call =>
      if x.desc.mode == Indexed then [UnresolvedBranch]
      else [CallDestination(x.resolved.value)]
    case Return => [FunctionReturn]
    case Dual => []
    case Other => []
  }

  /** Every decoded branch, jump or call outside indexed mode resolved its
      target, and that target lies in the address space. */
  lemma DecodedTargetKnown(data: seq<Byte>, addr: int, dual: set<Byte>)
    requires Decodable(data) && Decode(data, addr, dual).Success?
    ensures TargetKnown(Decode(data, addr, dual).value)
    ensures var x := Decode(data, addr, dual).value;
      TransfersControl(x.desc) && x.desc.mode != Indexed ==> 0 <= x.resolved.value <= AddressMask
  {
    var d := Lookup(data[0], dual).value;
    var x := Resolve(d, data, addr).value;
    assert Decode(data, addr, dual).value == x;
    if TransfersControl(d) {
      ControlTransfersHaveTargets(data[0], dual);
    }
  }

  /** `get_instruction_info(data, addr)`: None when decoding fails,
      otherwise the instruction's length and edges. */
  function InstructionInfo(data: seq<Byte>, addr: int, dual: set<Byte>): (r: Option<Info>)
    requires Decodable(data)
    ensures r.None? <==> Decode(data, addr, dual).Failure?
    ensures r.Some? ==> r.value.length == Decode(data, addr, dual).value.desc.length
    ensures r.Some? ==> TargetKnown(Decode(data, addr, dual).value)
    ensures r.Some? ==> r.value.branches == Edges(Decode(data, addr, dual).value, addr)
  {
    match Decode(data, addr, dual)
    case Failure(_) => None
    case Success(x) =>
      DecodedTargetKnown(data, addr, dual);
      Some(Info(x.desc.length, Edges(x, addr)))
  }

  /** Every target the classifier reports for a resolved edge lies in the
      address space; only the fall-through is left unmasked, at the next
      instruction's address. */
  lemma TargetsInAddressSpace(data: seq<Byte>, addr: int, dual: set<Byte>)
    requires Decodable(data) && InstructionInfo(data, addr, dual).Some?
    ensures var info := InstructionInfo(data, addr, dual).value;
      && (forall e | e in info.branches && ResolvedEdge(e) :: 0 <= e.target <= AddressMask)
      && (forall e | e in info.branches && e.FalseBranch? :: e.target == addr + info.length)
  {
    DecodedTargetKnown(data, addr, dual);
  }

  /** A branch, jump or call through the index register reports one
      unresolved edge and no target. */
  lemma IndexedTransferEdges(data: seq<Byte>, addr: int, dual: set<Byte>, d: Descriptor)
    requires Decodable(data) && Lookup(data[0], dual) == Some(d)
    requires TransfersControl(d) && d.mode == Indexed
    ensures InstructionInfo(data, addr, dual) == Some(Info(2, [UnresolvedBranch]))
  {
    DescriptorShape(data[0], dual);
    assert Decode(data, addr, dual) == Resolve(d, data, addr);
  }

  /** A relative branch, jump or call reports its masked target; a
      conditional branch adds the unmasked next address as its second edge. */
  lemma RelativeTransferEdges(data: seq<Byte>, addr: int, dual: set<Byte>, d: Descriptor)
    requires Decodable(data) && Lookup(data[0], dual) == Some(d)
    requires TransfersControl(d) && d.mode == Relative
    ensures var target := MaskAddress(addr + 2 + Displacement(data));
      && (d.cls == ConditionalBranch ==>
            InstructionInfo(data, addr, dual) == Some(Info(2, [TrueBranch(target), FalseBranch(addr + 2)])))
      && (d.cls == InstructionClass.UnconditionalBranch ==>
            InstructionInfo(data, addr, dual) == Some(Info(2, [Edge.UnconditionalBranch(target)])))
      && (d.cls == Call ==>
            InstructionInfo(data, addr, dual) == Some(Info(2, [CallDestination(target)])))
  {
    DescriptorShape(data[0], dual);
    var x := Decoded(d, Some(MaskAddress(addr + 2 + Displacement(data))));
    ResolveRelative(d, data, addr);
    assert Decode(data, addr, dual) == Success(x);
    assert InstructionInfo(data, addr, dual) == Some(Info(2, Edges(x, addr)));
  }

  /** An extended jump or call reports the masked operand word, and nothing
      when the word is cut short. */
  lemma ExtendedTransferEdges(data: seq<Byte>, addr: int, dual: set<Byte>, d: Descriptor)
    requires Decodable(data) && Lookup(data[0], dual) == Some(d)
    requires TransfersControl(d) && d.mode == Extended
    ensures |data| < 3 ==> InstructionInfo(data, addr, dual).None?
    ensures |data| >= 3 ==>
      var target := MaskAddress(BigEndianWord(data[1], data[2]));
      && (d.cls == InstructionClass.UnconditionalBranch ==>
            InstructionInfo(data, addr, dual) == Some(Info(3, [Edge.UnconditionalBranch(target)])))
      && (d.cls == Call ==>
            InstructionInfo(data, addr, dual) == Some(Info(3, [CallDestination(target)])))
  {
    DescriptorShape(data[0], dual);
    assert Decode(data, addr, dual) == Resolve(d, data, addr);
  }

  /** Every opcode of the conditional-branch list reports its masked
      relative target and the unmasked next address, in that order. */
  lemma ConditionalBranchEdges(data: seq<Byte>, addr: int, dual: set<Byte>)
    requires Decodable(data) && data[0] in BranchInstructions
    ensures InstructionInfo(data, addr, dual)
      == Some(Info(2, [TrueBranch(MaskAddress(addr + 2 + Displacement(data))), FalseBranch(addr + 2)]))
  {
    BranchIsRelative(data[0]);
    ClassFollowsLists(data[0], dual);
    RelativeTransferEdges(data, addr, dual, Lookup(data[0], dual).value);
  }

  /** RTS is a one-byte function return. */
  lemma ReturnEdges(data: seq<Byte>, addr: int, dual: set<Byte>)
    requires Decodable(data) && data[0] == 0x39
    ensures InstructionInfo(data, addr, dual) == Some(Info(1, [FunctionReturn]))
  {
    ReturnIsRts();
    ClassFollowsLists(data[0], dual);
  }

  /** An opcode outside the four lists ends no basic block. */
  lemma PlainInstructionEdges(data: seq<Byte>, addr: int, dual: set<Byte>)
    requires Decodable(data) && InstructionInfo(data, addr, dual).Some?
    requires data[0] !in BranchInstructions + JmpInstructions + CallInstructions + ReturnInstructions
    ensures InstructionInfo(data, addr, dual).value.branches == []
  {
    ClassFollowsLists(data[0], dual);
  }

  /** BRA with displacement -2 at 0x5810 branches to itself. */
  lemma BranchToSelf(dual: set<Byte>)
    ensures InstructionInfo([0x20, 0xFE], 0x5810, dual) == Some(Info(2, [Edge.UnconditionalBranch(0x5810)]))
  {
    JumpsCoverModes();
    ClassFollowsLists(0x20, dual);
    RelativeTransferEdges([0x20, 0xFE], 0x5810, dual, Lookup(0x20, dual).value);
  }

  /** BEQ +0 in the last byte of the address space: the taken target wraps
      to 1, while the fall-through is reported past the mask. */
  lemma FallThroughUnmasked(dual: set<Byte>)
    ensures InstructionInfo([0x27, 0x00], 0x7FFF, dual) == Some(Info(2, [TrueBranch(1), FalseBranch(0x8001)]))
  {
    BranchListIsRange(0x27);
    ConditionalBranchEdges([0x27, 0x00], 0x7FFF, dual);
    assert MaskAddress(0x7FFF + 2 + Displacement([0x27, 0x00])) == 1;
  }
}
