/** The flag tables of architecture.py:29-64: the six condition-code flags,
    the flag groups an instruction can write, and the flags each
    low-level condition reads. */
module Flags {

  /** The condition-code flags: carry, overflow, zero, negative, interrupt
      mask and half carry. */
  datatype Flag = C | V | Z | N | I | H

  const AllFlags: seq<Flag> := [C, V, Z, N, I, H]

  /** The letter that names a flag. */
  function FlagLetter(f: Flag): char
  {
    match f
    case C => 'C'
    case V => 'V'
    case Z => 'Z'
    case N => 'N'
    case I => 'I'
    case H => 'H'
  }

  /** The flag write types; the empty one writes no flag. */
  const FlagWriteTypes: seq<string> := ["", "HNZVC", "NZVC", "NZV", "Z"]

  /** The flags each named write type writes. */
  const FlagsWritten: map<string, seq<Flag>> := map[
    "HNZVC" := [H, N, Z, V, C],
    "NZVC" := [N, Z, V, C],
    "NZV" := [N, Z, V],
    "Z" := [Z]
  ]

  /** The low-level flag conditions the tables cover. */
  datatype Condition = UGE | UGT | ULE | ULT | SGE | SLT | SGT | SLE | E | NE | NEG | POS | O | NO

  /** The flags each condition reads. */
  const FlagsRequired: map<Condition, seq<Flag>> := map[
    UGE := [C],
    UGT := [C, Z],
    ULE := [C, Z],
    ULT := [C],
    SGE := [N, V],
    SLT := [N, V],
    SGT := [Z, N, V],
    SLE := [Z, N, V],
    E := [Z],
    NE := [Z],
    NEG := [N],
    POS := [N],
    O := [V],
    NO := [V]
  ]

  /** The condition that holds exactly when `c` does not. */
  function Negation(c: Condition): (r: Condition)
    ensures r != c
  {
    match c
    case UGE => ULT
    case ULT => UGE
    case UGT => ULE
    case ULE => UGT
    case SGE => SLT
    case SLT => SGE
    case SGT => SLE
    case SLE => SGT
    case E => NE
    case NE => E
    case NEG => POS
    case POS => NEG
    case O => NO
    case NO => O
  }

  /** The flags listed for a write type spell the write type's name, and
      every name but the empty one has a list. */
  lemma WriteTypesSpellTheirFlags()
    ensures forall t | t in FlagWriteTypes :: t != "" <==> t in FlagsWritten
    ensures forall t | t in FlagsWritten ::
      |FlagsWritten[t]| == |t| && forall k | 0 <= k < |t| :: FlagLetter(FlagsWritten[t][k]) == t[k]
  {
  }

  /** Each write group contains the next narrower one. */
  lemma WriteGroupsNest()
    ensures forall f | f in FlagsWritten["NZVC"] :: f in FlagsWritten["HNZVC"]
    ensures forall f | f in FlagsWritten["NZV"] :: f in FlagsWritten["NZVC"]
    ensures forall f | f in FlagsWritten["Z"] :: f in FlagsWritten["NZV"]
    ensures H !in FlagsWritten["NZVC"] && C !in FlagsWritten["NZV"] && N !in FlagsWritten["Z"]
  {
  }

  /** Every condition is covered; none reads the half carry or the
      interrupt mask, so the widest write group supplies all of them. */
  lemma ConditionsReadArithmeticFlags()
    ensures forall c: Condition :: c in FlagsRequired
    ensures forall c: Condition :: H !in FlagsRequired[c] && I !in FlagsRequired[c]
    ensures forall c: Condition, f | f in FlagsRequired[c] :: f in FlagsWritten["HNZVC"]
  {
    forall c: Condition
      ensures c in FlagsRequired && H !in FlagsRequired[c] && I !in FlagsRequired[c]
    {
      match c
      case UGE => case UGT => case ULE => case ULT =>
      case SGE => case SLT => case SGT => case SLE =>
      case E => case NE => case NEG => case POS => case O => case NO =>
    }
  }

  /** A condition and its negation read the same flags, and negating twice
      gives the condition back. */
  lemma NegationReadsSameFlags(c: Condition)
    ensures Negation(Negation(c)) == c
    ensures FlagsRequired[Negation(c)] == FlagsRequired[c]
  {
  }
}
