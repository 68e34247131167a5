/** Evaluation of address expressions against a label table and the current code
    offset (asm_6502/assemble.py, `_resolve_address_recur`). */
module Resolution {
  import opened Integers
  import opened Syntax

  /** The outcome of evaluating an expression: a value, a label that is not bound yet
      (an AssembleError in the source), or a division by zero (a ZeroDivisionError). */
  datatype Resolved = Known(value: int) | MissingLabel(name: string) | ZeroDivisor

  /** The labels an expression refers to. */
  function Mentions(e: Expr): set<string> {
    match e
    case Lit(_) => {}
    case Cur => {}
    case LabelRef(name) => {name}
    case Bin(_, l, r) => Mentions(l) + Mentions(r)
    case Lo(a) => Mentions(a)
    case Hi(a) => Mentions(a)
  }

  function Apply(op: BinOp, x: int, y: int): Resolved {
    match op
    case Plus => Known(x + y)
    case Minus => Known(x - y)
    case Times => Known(x * y)
    case Over => if y == 0 then ZeroDivisor else Known(FloorDivide(x, y))
  }

  /** Evaluates left to right; the first failure met wins, as with Python exceptions.
      A label reported missing is one the expression mentions and the table lacks, and
      an expression whose labels are all bound never reports a missing label. */
  function Resolve(e: Expr, labels: map<string, int>, current: int): (r: Resolved)
    ensures r.MissingLabel? ==> r.name in Mentions(e) && r.name !in labels
    ensures Mentions(e) <= labels.Keys ==> !r.MissingLabel?
  {
    match e
    case Lit(n) => Known(n.value)
    case Cur => Known(current)
    case LabelRef(name) => if name in labels then Known(labels[name]) else MissingLabel(name)
    case Bin(op, l, r) =>
      var x := Resolve(l, labels, current);
      if !x.Known? then x
      else
        var y := Resolve(r, labels, current);
        if !y.Known? then y else Apply(op, x.value, y.value)
    case Lo(a) =>
      var x := Resolve(a, labels, current);
      if x.Known? then Known(LowOf(x.value)) else x
    case Hi(a) =>
      var x := Resolve(a, labels, current);
      if x.Known? then Known(HighOf(x.value)) else x
  }

  /** `small` is contained in `big`: every binding of `small` is also in `big`. */
  ghost predicate SubMap(small: map<string, int>, big: map<string, int>) {
    forall k :: k in small ==> k in big && big[k] == small[k]
  }

  /** A value, once known, stays the same when more labels are bound: the heart of the
      pass-1/pass-2 agreement on zero-page operands. */
  lemma {:induction false} ResolveStable(e: Expr, small: map<string, int>, big: map<string, int>, current: int)
    requires SubMap(small, big)
    requires Resolve(e, small, current).Known?
    ensures Resolve(e, big, current) == Resolve(e, small, current)
  {
    match e
    case Lit(_) =>
    case Cur =>
    case LabelRef(_) =>
    case Bin(_, l, r) =>
      ResolveStable(l, small, big, current);
      ResolveStable(r, small, big, current);
    case Lo(a) =>
      ResolveStable(a, small, big, current);
    case Hi(a) =>
      ResolveStable(a, small, big, current);
  }

  /** Only the bindings of mentioned labels matter. */
  lemma {:induction false} ResolveLocal(e: Expr, m1: map<string, int>, m2: map<string, int>, current: int)
    requires forall k :: k in Mentions(e) ==> (k in m1 <==> k in m2) && (k in m1 ==> m1[k] == m2[k])
    ensures Resolve(e, m1, current) == Resolve(e, m2, current)
  {
    match e
    case Lit(_) =>
    case Cur =>
    case LabelRef(_) =>
    case Bin(_, l, r) =>
      ResolveLocal(l, m1, m2, current);
      ResolveLocal(r, m1, m2, current);
    case Lo(a) =>
      ResolveLocal(a, m1, m2, current);
    case Hi(a) =>
      ResolveLocal(a, m1, m2, current);
  }
}
