/** Mixing programs: a straight line of in-place register updates, each of which
    can be undone. SpookyHash's four mixing routines are such programs. */
module Mixer {
  import opened Words

  /** One statement of a mixing routine on the registers h:
      AddData(d, i)  h[d] += data[i]
      AddReg(d, s)   h[d] += h[s]
      XorReg(d, s)   h[d] ^= h[s]
      Rotate(d, k)   h[d] = ROTL64(h[d], k) */
  datatype Op =
    | AddData(dst: nat, i: nat)
    | AddReg(dst: nat, src: nat)
    | XorReg(dst: nat, src: nat)
    | Rotate(dst: nat, k: nat)

  /** op only touches registers below n and data words below m, and never
      combines a register with itself. */
  predicate OpFits(op: Op, n: nat, m: nat) {
    op.dst < n &&
    match op
    case AddData(_, i) => i < m
    case AddReg(d, s) => s < n && s != d
    case XorReg(d, s) => s < n && s != d
    case Rotate(_, k) => 0 < k < 64
  }

  predicate Fits(p: seq<Op>, n: nat, m: nat) {
    forall j :: 0 <= j < |p| ==> OpFits(p[j], n, m)
  }

  /** What op combines with its destination register. */
  function Operand(op: Op, data: seq<bv64>, h: seq<bv64>): bv64
    requires OpFits(op, |h|, |data|)
  {
    match op
    case AddData(_, i) => data[i]
    case AddReg(_, s) => h[s]
    case XorReg(_, s) => h[s]
    case Rotate(_, _) => 0
  }

  function Apply(op: Op, x: bv64, y: bv64): bv64
    requires op.Rotate? ==> 0 < op.k < 64
  {
    match op
    case AddData(_, _) => Add64(x, y)
    case AddReg(_, _) => Add64(x, y)
    case XorReg(_, _) => Xor64(x, y)
    case Rotate(_, k) => Rotl64(x, k)
  }

  function Unapply(op: Op, x: bv64, y: bv64): bv64
    requires op.Rotate? ==> 0 < op.k < 64
  {
    match op
    case AddData(_, _) => Sub64(x, y)
    case AddReg(_, _) => Sub64(x, y)
    case XorReg(_, _) => Xor64(x, y)
    case Rotate(_, k) => Rotr64(x, k)
  }

  lemma ApplyUnapply(op: Op, x: bv64, y: bv64)
    requires op.Rotate? ==> 0 < op.k < 64
    ensures Unapply(op, Apply(op, x, y), y) == x
    ensures Apply(op, Unapply(op, x, y), y) == x
  {
    match op {
      case AddData(_, _) => AddSub64(x, y);
      case AddReg(_, _) => AddSub64(x, y);
      case XorReg(_, _) => XorXor64(x, y);
      case Rotate(_, k) => RotlRotr64(x, k);
    }
  }

  function Step(op: Op, data: seq<bv64>, h: seq<bv64>): (r: seq<bv64>)
    requires OpFits(op, |h|, |data|)
    ensures |r| == |h|
  {
    h[op.dst := Apply(op, h[op.dst], Operand(op, data, h))]
  }

  function Unstep(op: Op, data: seq<bv64>, h: seq<bv64>): (r: seq<bv64>)
    requires OpFits(op, |h|, |data|)
    ensures |r| == |h|
  {
    h[op.dst := Unapply(op, h[op.dst], Operand(op, data, h))]
  }

  lemma StepUnstep(op: Op, data: seq<bv64>, h: seq<bv64>)
    requires OpFits(op, |h|, |data|)
    ensures Unstep(op, data, Step(op, data, h)) == h
    ensures Step(op, data, Unstep(op, data, h)) == h
  {
    hide Apply, Unapply;
    var y := Operand(op, data, h);
    ApplyUnapply(op, h[op.dst], y);
    assert Operand(op, data, Step(op, data, h)) == y == Operand(op, data, Unstep(op, data, h));
  }

  /** Runs a program on a copy of the registers. */
  function Run(p: seq<Op>, data: seq<bv64>, h: seq<bv64>): (r: seq<bv64>)
    requires Fits(p, |h|, |data|)
    ensures |r| == |h|
  {
    if p == [] then h else Run(p[1..], data, Step(p[0], data, h))
  }

  /** Undoes a program: its statements inverted, last one first. */
  function Unrun(p: seq<Op>, data: seq<bv64>, h: seq<bv64>): (r: seq<bv64>)
    requires Fits(p, |h|, |data|)
    ensures |r| == |h|
  {
    if p == [] then h else Unstep(p[0], data, Unrun(p[1..], data, h))
  }

  /** Every mixing program is a permutation of its register states. */
  lemma {:induction false} RunUnrun(p: seq<Op>, data: seq<bv64>, h: seq<bv64>)
    requires Fits(p, |h|, |data|)
    ensures Unrun(p, data, Run(p, data, h)) == h
    ensures Run(p, data, Unrun(p, data, h)) == h
  {
    if p == [] {
    } else {
      StepUnstep(p[0], data, h);
      RunUnrun(p[1..], data, Step(p[0], data, h));
      RunUnrun(p[1..], data, h);
      StepUnstep(p[0], data, Unrun(p[1..], data, h));
    }
  }

  lemma RunInjective(p: seq<Op>, data: seq<bv64>, h1: seq<bv64>, h2: seq<bv64>)
    requires |h1| == |h2| && Fits(p, |h1|, |data|)
    requires Run(p, data, h1) == Run(p, data, h2)
    ensures h1 == h2
  {
    RunUnrun(p, data, h1);
    RunUnrun(p, data, h2);
  }

  function Flatten(rows: seq<seq<Op>>): seq<Op> {
    if rows == [] then [] else rows[0] + Flatten(rows[1..])
  }

  lemma {:induction false} FlattenFits(rows: seq<seq<Op>>, n: nat, m: nat)
    requires forall r :: 0 <= r < |rows| ==> Fits(rows[r], n, m)
    ensures Fits(Flatten(rows), n, m)
  {
    if rows != [] {
      FlattenFits(rows[1..], n, m);
    }
  }

  /** The C routines update h in place; so does this. */
  method Exec(p: seq<Op>, data: seq<bv64>, h: array<bv64>)
    requires Fits(p, h.Length, |data|)
    modifies h
    ensures h[..] == Run(p, data, old(h[..]))
  {
    ghost var h0 := h[..];
    for j := 0 to |p|
      invariant Run(p, data, h0) == Run(p[j..], data, h[..])
    {
      ghost var before := h[..];
      match p[j] {
        case AddData(d, i) => h[d] := Add64(h[d], data[i]);
        case AddReg(d, s) => h[d] := Add64(h[d], h[s]);
        case XorReg(d, s) => h[d] := Xor64(h[d], h[s]);
        case Rotate(d, k) => h[d] := Rotl64(h[d], k);
      }
      assert h[..] == Step(p[j], data, before);
      assert p[j..][1..] == p[j + 1..];
    }
  }
}
