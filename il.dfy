/** The low-level IL the lifter emits: the expression forms the lifter
    builds, labels, and the items of an IL function (appended expressions
    and label marks). */
module IL {
  import opened Wrappers
  import opened Instructions

  /** A label, told apart by the order in which it was allocated. */
  datatype Label = Label(id: nat)

  /** IL expressions; widths are in bytes. `Op` is the per-mnemonic
      operation builder, kept uninterpreted. */
  datatype Expr =
    | Const(width: nat, value: int)
    | Reg(width: nat, reg: Register)
    | Add(width: nat, left: Expr, right: Expr)
    | Load(width: nat, address: Expr)
    | SetReg(width: nat, dest: Register, src: Expr)
    | Store(width: nat, address: Expr, src: Expr)
    | Jump(target: Expr)
    | Goto(l: Label)
    | If(cond: Expr, whenTrue: Label, whenFalse: Label)
    | Op(mnemonic: Mnemonic, operand: Operand, second: Option<Register>)

  /** The first argument of an operation builder: nothing, an expression,
      or a register passed by name (the pull instructions). */
  datatype Operand = NoOperand | ExprOperand(expr: Expr) | NameOperand(name: Register)

  /** One entry of an IL function: an appended expression or a label
      placed at that point. */
  datatype Item = Append(expr: Expr) | Mark(l: Label)

  /** An appended conditional. */
  predicate IsIf(item: Item)
  {
    item.Append? && item.expr.If?
  }
}
