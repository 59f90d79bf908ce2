/** The selection-function panel of the compression view: `calculateFunction` dispatches
    on a function name to F..J, `getFormulaDisplay` gives the formula the panel prints,
    and missing operands count as 0.  The panel's own F..J are the bitwise expressions
    of the hash module with a trailing `>>> 0`, which leaves the 32 bits unchanged, so
    they are the functions of module Selection. */
module RipemdFunction {
  import opened Bits
  import opened Selection

  datatype Option<T> = None | Some(value: T)

  /** `calculateFunction(name, x, y, z)`: the selection function with that name, and 0
      for any other name. */
  function CalculateFunction(name: string, x: Word, y: Word, z: Word): Word {
    if name == "F" then F(x, y, z)
    else if name == "G" then G(x, y, z)
    else if name == "H" then H(x, y, z)
    else if name == "I" then I(x, y, z)
    else if name == "J" then J(x, y, z)
    else 0
  }

  /** `getFormulaDisplay(name)`: the formula shown for each name, and the empty string
      for any other name. */
  function GetFormulaDisplay(name: string): string {
    if name == "F" then "x ⊕ y ⊕ z"
    else if name == "G" then "(x ∧ y) ∨ (¬x ∧ z)"
    else if name == "H" then "(x ∨ ¬y) ⊕ z"
    else if name == "I" then "(x ∧ z) ∨ (y ∧ ¬z)"
    else if name == "J" then "x ⊕ (y ∨ ¬z)"
    else ""
  }

  /** `x || 0`: an operand that is absent counts as 0 (a present 0 stays 0). */
  function OrZero(operand: Option<Word>): (r: Word)
    ensures operand.None? ==> r == 0
    ensures operand.Some? ==> r == operand.value
  {
    match operand
    case None => 0
    case Some(v) => v
  }

  /** The `result` the panel computes from its possibly missing operands: each operand
      that is absent counts as 0 on its own, and each present one is used as given. */
  function PanelResult(name: string, x: Option<Word>, y: Option<Word>, z: Option<Word>): (r: Word)
    ensures x == None && y == None && z == None ==> r == CalculateFunction(name, 0, 0, 0)
    ensures x.Some? && y.Some? && z.Some? ==> r == CalculateFunction(name, x.value, y.value, z.value)
    ensures r == CalculateFunction(name,
                                   if x.Some? then x.value else 0,
                                   if y.Some? then y.value else 0,
                                   if z.Some? then z.value else 0)
  {
    CalculateFunction(name, OrZero(x), OrZero(y), OrZero(z))
  }

  // ---------------------------------------------------------------------------
  // Formulas: what the display strings say, as expressions over x, y and z

  datatype Var = VarX | VarY | VarZ
  datatype Op = AndOp | OrOp | XorOp
  datatype Formula = Atom(v: Var) | Not(arg: Formula) | Bin(op: Op, left: Formula, right: Formula)

  function VarName(v: Var): string {
    match v
    case VarX => "x"
    case VarY => "y"
    case VarZ => "z"
  }

  function OpSymbol(op: Op): string {
    match op
    case AndOp => "∧"
    case OrOp => "∨"
    case XorOp => "⊕"
  }

  /** Written form of a formula: an operand of a binary operator is parenthesised when it
      is itself built by a different binary operator. */
  function Render(f: Formula): string {
    match f
    case Atom(v) => VarName(v)
    case Not(g) => "¬" + Render(g)
    case Bin(op, l, r) => Operand(op, l, Render(l)) + " " + OpSymbol(op) + " " + Operand(op, r, Render(r))
  }

  /** The written operand g of op, given g's own written form. */
  function Operand(op: Op, g: Formula, written: string): string {
    if g.Bin? && g.op != op then "(" + written + ")" else written
  }

  /** The 32-bit value of a formula. */
  function Eval(f: Formula, x: Word, y: Word, z: Word): Word {
    match f
    case Atom(v) => Pick(v, x, y, z)
    case Not(g) => !Eval(g, x, y, z)
    case Bin(op, l, r) => Apply(op, Eval(l, x, y, z), Eval(r, x, y, z))
  }

  function Pick(v: Var, x: Word, y: Word, z: Word): Word {
    match v
    case VarX => x
    case VarY => y
    case VarZ => z
  }

  function Apply(op: Op, a: Word, b: Word): Word {
    match op
    case AndOp => a & b
    case OrOp => a | b
    case XorOp => a ^ b
  }

  const FormulaF := Bin(XorOp, Bin(XorOp, Atom(VarX), Atom(VarY)), Atom(VarZ))
  const FormulaG := Bin(OrOp, Bin(AndOp, Atom(VarX), Atom(VarY)), Bin(AndOp, Not(Atom(VarX)), Atom(VarZ)))
  const FormulaH := Bin(XorOp, Bin(OrOp, Atom(VarX), Not(Atom(VarY))), Atom(VarZ))
  const FormulaI := Bin(OrOp, Bin(AndOp, Atom(VarX), Atom(VarZ)), Bin(AndOp, Atom(VarY), Not(Atom(VarZ))))
  const FormulaJ := Bin(XorOp, Atom(VarX), Bin(OrOp, Atom(VarY), Not(Atom(VarZ))))

  /** The formula each name's display string describes. */
  function FormulaOf(name: string): Option<Formula> {
    if name == "F" then Some(FormulaF)
    else if name == "G" then Some(FormulaG)
    else if name == "H" then Some(FormulaH)
    else if name == "I" then Some(FormulaI)
    else if name == "J" then Some(FormulaJ)
    else None
  }

  /** The display string of each of the five names is the written form of its formula,
      and any other name shows nothing. */
  lemma DisplayIsRendered(name: string)
    ensures FormulaOf(name).Some? <==> name == "F" || name == "G" || name == "H" || name == "I" || name == "J"
    ensures FormulaOf(name).Some? ==> GetFormulaDisplay(name) == Render(FormulaOf(name).value)
    ensures FormulaOf(name).None? ==> GetFormulaDisplay(name) == ""
  {
    if name == "F" {
      RenderF();
    } else if name == "G" {
      RenderG();
    } else if name == "H" {
      RenderH();
    } else if name == "I" {
      RenderI();
    } else if name == "J" {
      RenderJ();
    }
  }

  /** What `calculateFunction` computes for each of the five names is the value of the
      formula its display string describes, and 0 for any other name. */
  lemma CalculationIsEvaluated(name: string, x: Word, y: Word, z: Word)
    ensures FormulaOf(name).Some? ==> CalculateFunction(name, x, y, z) == Eval(FormulaOf(name).value, x, y, z)
    ensures FormulaOf(name).None? ==> CalculateFunction(name, x, y, z) == 0
  {
    if name == "F" {
      EvalF(x, y, z);
      FAsApply(x, y, z);
    } else if name == "G" {
      EvalG(x, y, z);
      GAsApply(x, y, z);
    } else if name == "H" {
      EvalH(x, y, z);
      HAsApply(x, y, z);
    } else if name == "I" {
      EvalI(x, y, z);
      IAsApply(x, y, z);
    } else if name == "J" {
      EvalJ(x, y, z);
      JAsApply(x, y, z);
    }
  }

  lemma RenderF()
    ensures Render(FormulaF) == GetFormulaDisplay("F")
  {
    var vx, vy, vz := Atom(VarX), Atom(VarY), Atom(VarZ);
    assert Render(Bin(XorOp, vx, vy)) == "x ⊕ y";
  }

  lemma RenderG()
    ensures Render(FormulaG) == GetFormulaDisplay("G")
  {
    var vx, vy, vz := Atom(VarX), Atom(VarY), Atom(VarZ);
    var l, r := Bin(AndOp, vx, vy), Bin(AndOp, Not(vx), vz);
    assert Render(Not(vx)) == "¬x";
    assert Render(l) == "x ∧ y";
    assert Render(r) == "¬x ∧ z";
    assert Operand(OrOp, l, Render(l)) == "(x ∧ y)";
    assert Operand(OrOp, r, Render(r)) == "(¬x ∧ z)";
  }

  lemma RenderH()
    ensures Render(FormulaH) == GetFormulaDisplay("H")
  {
    var vx, vy, vz := Atom(VarX), Atom(VarY), Atom(VarZ);
    var l := Bin(OrOp, vx, Not(vy));
    assert Render(l) == "x ∨ ¬y";
    assert Operand(XorOp, l, Render(l)) == "(x ∨ ¬y)";
  }

  lemma RenderI()
    ensures Render(FormulaI) == GetFormulaDisplay("I")
  {
    var vx, vy, vz := Atom(VarX), Atom(VarY), Atom(VarZ);
    var l, r := Bin(AndOp, vx, vz), Bin(AndOp, vy, Not(vz));
    assert Render(Not(vz)) == "¬z";
    assert Render(l) == "x ∧ z";
    assert Render(r) == "y ∧ ¬z";
    assert Operand(OrOp, l, Render(l)) == "(x ∧ z)";
    assert Operand(OrOp, r, Render(r)) == "(y ∧ ¬z)";
  }

  lemma RenderJ()
    ensures Render(FormulaJ) == GetFormulaDisplay("J")
  {
    var vx, vy, vz := Atom(VarX), Atom(VarY), Atom(VarZ);
    var r := Bin(OrOp, vy, Not(vz));
    assert Render(r) == "y ∨ ¬z";
    assert Operand(XorOp, r, Render(r)) == "(y ∨ ¬z)";
  }

  lemma EvalF(x: Word, y: Word, z: Word)
    ensures Eval(FormulaF, x, y, z) == Apply(XorOp, Apply(XorOp, x, y), z)
  {
    EvalBin(XorOp, Bin(XorOp, Atom(VarX), Atom(VarY)), Atom(VarZ), x, y, z);
    EvalBin(XorOp, Atom(VarX), Atom(VarY), x, y, z);
    EvalAtoms(x, y, z);
  }

  lemma EvalG(x: Word, y: Word, z: Word)
    ensures Eval(FormulaG, x, y, z) == Apply(OrOp, Apply(AndOp, x, y), Apply(AndOp, !x, z))
  {
    EvalBin(OrOp, Bin(AndOp, Atom(VarX), Atom(VarY)), Bin(AndOp, Not(Atom(VarX)), Atom(VarZ)), x, y, z);
    EvalBin(AndOp, Atom(VarX), Atom(VarY), x, y, z);
    EvalBin(AndOp, Not(Atom(VarX)), Atom(VarZ), x, y, z);
    EvalNot(Atom(VarX), x, y, z);
    EvalAtoms(x, y, z);
  }

  lemma EvalH(x: Word, y: Word, z: Word)
    ensures Eval(FormulaH, x, y, z) == Apply(XorOp, Apply(OrOp, x, !y), z)
  {
    EvalBin(XorOp, Bin(OrOp, Atom(VarX), Not(Atom(VarY))), Atom(VarZ), x, y, z);
    EvalBin(OrOp, Atom(VarX), Not(Atom(VarY)), x, y, z);
    EvalNot(Atom(VarY), x, y, z);
    EvalAtoms(x, y, z);
  }

  lemma EvalI(x: Word, y: Word, z: Word)
    ensures Eval(FormulaI, x, y, z) == Apply(OrOp, Apply(AndOp, x, z), Apply(AndOp, y, !z))
  {
    EvalBin(OrOp, Bin(AndOp, Atom(VarX), Atom(VarZ)), Bin(AndOp, Atom(VarY), Not(Atom(VarZ))), x, y, z);
    EvalBin(AndOp, Atom(VarX), Atom(VarZ), x, y, z);
    EvalBin(AndOp, Atom(VarY), Not(Atom(VarZ)), x, y, z);
    EvalNot(Atom(VarZ), x, y, z);
    EvalAtoms(x, y, z);
  }

  lemma EvalJ(x: Word, y: Word, z: Word)
    ensures Eval(FormulaJ, x, y, z) == Apply(XorOp, x, Apply(OrOp, y, !z))
  {
    EvalBin(XorOp, Atom(VarX), Bin(OrOp, Atom(VarY), Not(Atom(VarZ))), x, y, z);
    EvalBin(OrOp, Atom(VarY), Not(Atom(VarZ)), x, y, z);
    EvalNot(Atom(VarZ), x, y, z);
    EvalAtoms(x, y, z);
  }

  lemma FAsApply(x: Word, y: Word, z: Word)
    ensures F(x, y, z) == Apply(XorOp, Apply(XorOp, x, y), z)
  {
    ApplyXor(x, y);
    ApplyXor(x ^ y, z);
  }

  lemma GAsApply(x: Word, y: Word, z: Word)
    ensures G(x, y, z) == Apply(OrOp, Apply(AndOp, x, y), Apply(AndOp, !x, z))
  {
  }

  lemma HAsApply(x: Word, y: Word, z: Word)
    ensures H(x, y, z) == Apply(XorOp, Apply(OrOp, x, !y), z)
  {
  }

  lemma IAsApply(x: Word, y: Word, z: Word)
    ensures I(x, y, z) == Apply(OrOp, Apply(AndOp, x, z), Apply(AndOp, y, !z))
  {
  }

  lemma JAsApply(x: Word, y: Word, z: Word)
    ensures J(x, y, z) == Apply(XorOp, x, Apply(OrOp, y, !z))
  {
    assert Apply(OrOp, y, !z) == y | !z;
    ApplyXor(x, y | !z);
  }

  lemma ApplyXor(a: Word, b: Word)
    ensures Apply(XorOp, a, b) == a ^ b
  {
  }

  /** The leaves evaluate to the operands, and negation to the complement. */
  lemma EvalAtoms(x: Word, y: Word, z: Word)
    ensures Eval(Atom(VarX), x, y, z) == x && Eval(Atom(VarY), x, y, z) == y && Eval(Atom(VarZ), x, y, z) == z
  {
  }

  /** One step of evaluation at a negation. */
  lemma EvalNot(g: Formula, x: Word, y: Word, z: Word)
    ensures Eval(Not(g), x, y, z) == !Eval(g, x, y, z)
  {
  }

  /** One step of evaluation at a binary node. */
  lemma EvalBin(op: Op, l: Formula, r: Formula, x: Word, y: Word, z: Word)
    ensures Eval(Bin(op, l, r), x, y, z) == Apply(op, Eval(l, x, y, z), Eval(r, x, y, z))
  {
  }
}
