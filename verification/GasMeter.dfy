/** The gas meter of a frame (interpreter/src/gas.rs). */
module GasMeter {
  import opened Words

  type I64 = x: int | -0x8000_0000_0000_0000 <= x < 0x8000_0000_0000_0000

  /** The fields of `Gas` as a value. */
  datatype Meter = Meter(limit: U64, allUsedGas: U64, used: U64, memory: U64, refunded: I64) {
    /** What the fields are for: the total is used gas and memory gas, and within the limit. */
    ghost predicate Balanced() {
      allUsedGas == used + memory && allUsedGas <= limit
    }

    function Remaining(): U64 {
      WrappingSub64(limit, allUsedGas)
    }
  }

  /** The operators on u64 and i64 of a release build. */
  function WrappingSub64(a: U64, b: U64): U64 {
    if b <= a then a - b else a - b + TWO_64
  }

  function WrappingAdd64(a: U64, b: U64): U64 {
    if a + b < TWO_64 then a + b else a + b - TWO_64
  }

  function WrappingAddI64(a: I64, b: I64): I64 {
    if a + b < -0x8000_0000_0000_0000 then a + b + TWO_64
    else if a + b >= 0x8000_0000_0000_0000 then a + b - TWO_64
    else a + b
  }

  /** The cast `as u64`. */
  function AsU64(a: I64): U64 {
    if a < 0 then a + TWO_64 else a
  }

  function NewMeter(limit: U64): Meter {
    Meter(limit, 0, 0, 0, 0)
  }

  function EraseCost(m: Meter, returned: U64): Meter {
    m.(used := WrappingSub64(m.used, returned), allUsedGas := WrappingSub64(m.allUsedGas, returned))
  }

  function RecordRefund(m: Meter, refund: I64): Meter {
    m.(refunded := WrappingAddI64(m.refunded, refund))
  }

  function RecordCost(m: Meter, cost: U64): (Meter, bool) {
    var allUsedGas := m.allUsedGas + cost;
    if allUsedGas >= TWO_64 || m.limit < allUsedGas then (m, false)
    else (m.(used := WrappingAdd64(m.used, cost), allUsedGas := allUsedGas), true)
  }

  function RecordMemory(m: Meter, gasMemory: U64): (Meter, bool) {
    if gasMemory <= m.memory then (m, true)
    else
      var allUsedGas := m.used + gasMemory;
      if allUsedGas >= TWO_64 || m.limit < allUsedGas then (m, false)
      else (m.(memory := gasMemory, allUsedGas := allUsedGas), true)
  }

  // ---------------------------------------------------------------- runs

  datatype GasOp = Cost(cost: U64) | Memory(gas: U64) | Erase(returned: U64) | Refund(refund: I64)

  function Apply(m: Meter, op: GasOp): Meter {
    match op
    case Cost(c) => RecordCost(m, c).0
    case Memory(g) => RecordMemory(m, g).0
    case Erase(r) => EraseCost(m, r)
    case Refund(r) => RecordRefund(m, r)
  }

  function Run(m: Meter, ops: seq<GasOp>): Meter {
    if ops == [] then m else Apply(Run(m, ops[..|ops| - 1]), ops[|ops| - 1])
  }

  /** What the operation adds to used gas: an accepted cost, or a return taken off. */
  function NetCost(m: Meter, op: GasOp): int {
    match op
    case Cost(c) => if RecordCost(m, c).1 then c else 0
    case Erase(r) => -(r as int)
    case _ => 0
  }

  function NetCosts(m: Meter, ops: seq<GasOp>): int {
    if ops == [] then 0
    else
      var n := |ops| - 1;
      NetCosts(m, ops[..n]) + NetCost(Run(m, ops[..n]), ops[n])
  }

  /** The largest memory charge that was accepted. */
  function PeakMemory(m: Meter, ops: seq<GasOp>): nat {
    if ops == [] then 0
    else
      var n := |ops| - 1;
      var peak := PeakMemory(m, ops[..n]);
      if ops[n].Memory? && RecordMemory(Run(m, ops[..n]), ops[n].gas).1 then Max(peak, ops[n].gas) else peak
  }

  /** No operation hands back more than is recorded as used at that point. */
  ghost predicate NeverOverReturns(m: Meter, ops: seq<GasOp>) {
    forall i | 0 <= i < |ops| && ops[i].Erase? :: ops[i].returned <= Run(m, ops[..i]).used
  }

  /** One operation of such a run. */
  lemma MeterStep(m: Meter, op: GasOp)
    requires m.Balanced() && (op.Erase? ==> op.returned <= m.used)
    ensures Apply(m, op).Balanced() && Apply(m, op).limit == m.limit
    ensures Apply(m, op).used == m.used + NetCost(m, op)
    ensures Apply(m, op).memory == if op.Memory? && RecordMemory(m, op.gas).1 then Max(m.memory, op.gas) else m.memory
  {
  }

  /**
    On every run that never returns more than was used, the meter balances, used
    gas is accepted costs minus returns, and memory is charged once, at its peak.
   */
  lemma {:induction false} MeterOfRun(limit: U64, ops: seq<GasOp>)
    requires NeverOverReturns(NewMeter(limit), ops)
    ensures var m := Run(NewMeter(limit), ops);
            && m.limit == limit
            && m.Balanced()
            && m.used == NetCosts(NewMeter(limit), ops)
            && m.memory == PeakMemory(NewMeter(limit), ops)
            && m.Remaining() == limit - NetCosts(NewMeter(limit), ops) - PeakMemory(NewMeter(limit), ops)
  {
    if ops != [] {
      var n := |ops| - 1;
      var init := ops[..n];
      forall i | 0 <= i < |init| && init[i].Erase?
        ensures init[i].returned <= Run(NewMeter(limit), init[..i]).used
      {
        assert init[..i] == ops[..i];
      }
      MeterOfRun(limit, init);
      MeterStep(Run(NewMeter(limit), init), ops[n]);
    }
  }

  /** The refunds of a run, added up. */
  function Refunds(ops: seq<GasOp>): int {
    if ops == [] then 0
    else
      var n := |ops| - 1;
      Refunds(ops[..n]) + if ops[n].Refund? then ops[n].refund else 0
  }

  /**
    On every run the meter holds the sum of its refunds modulo 2^64: a sum that
    fits is exact, whatever it wrapped through on the way.
   */
  lemma {:induction false} RefundOfRun(limit: U64, ops: seq<GasOp>)
    ensures var refunded := Run(NewMeter(limit), ops).refunded;
            && (refunded - Refunds(ops)) % TWO_64 == 0
            && (-0x8000_0000_0000_0000 <= Refunds(ops) < 0x8000_0000_0000_0000 ==> refunded == Refunds(ops))
  {
    if ops != [] {
      var n := |ops| - 1;
      RefundOfRun(limit, ops[..n]);
      var before, after := Run(NewMeter(limit), ops[..n]).refunded, Run(NewMeter(limit), ops).refunded;
      var refund := if ops[n].Refund? then ops[n].refund else 0;
      assert after - Refunds(ops) - (before - Refunds(ops[..n])) in {0, TWO_64, -TWO_64};
    }
  }

  /** A refused charge changes nothing, and a charge is refused exactly when it does not fit. */
  lemma RefusedCharge(m: Meter, charge: U64)
    requires m.Balanced()
    ensures RecordCost(m, charge).1 <==> charge <= m.Remaining()
    ensures RecordMemory(m, charge).1 <==> charge <= m.memory || charge - m.memory <= m.Remaining()
    ensures !RecordCost(m, charge).1 ==> RecordCost(m, charge).0 == m
    ensures !RecordMemory(m, charge).1 ==> RecordMemory(m, charge).0 == m
  {
    assert m.limit - m.used == m.Remaining() + m.memory;
  }

  /** Handing back keeps the meter balanced exactly for returns up to the used gas, or past a whole wrap-around. */
  lemma EraseKeepsBalance(m: Meter, returned: U64)
    requires m.Balanced()
    ensures EraseCost(m, returned).Balanced()
            <==> returned <= m.used || (m.allUsedGas < returned && m.allUsedGas - returned + TWO_64 <= m.limit)
  {
  }

  /** `Gas`, updated in place. */
  class Gas {
    var limit: U64
    var allUsedGas: U64
    var used: U64
    var memory: U64
    var refunded: I64

    function Value(): Meter
      reads this
    {
      Meter(limit, allUsedGas, used, memory, refunded)
    }

    constructor (gasLimit: U64)
      ensures Value() == NewMeter(gasLimit)
    {
      limit, allUsedGas, used, memory, refunded := gasLimit, 0, 0, 0, 0;
    }

    method RecordEraseCost(returned: U64)
      modifies this
      ensures Value() == EraseCost(old(Value()), returned)
    {
      used := WrappingSub64(used, returned);
      allUsedGas := WrappingSub64(allUsedGas, returned);
    }

    method AddRefund(refund: I64)
      modifies this
      ensures Value() == RecordRefund(old(Value()), refund)
    {
      refunded := WrappingAddI64(refunded, refund);
    }

    method ChargeCost(cost: U64) returns (accepted: bool)
      modifies this
      ensures (Value(), accepted) == RecordCost(old(Value()), cost)
      ensures old(Value()).Balanced() ==> Value().Balanced()
    {
      var total := allUsedGas + cost;
      if total >= TWO_64 || limit < total {
        return false;
      }
      used := WrappingAdd64(used, cost);
      allUsedGas := total;
      return true;
    }

    method ChargeMemory(gasMemory: U64) returns (accepted: bool)
      modifies this
      ensures (Value(), accepted) == RecordMemory(old(Value()), gasMemory)
      ensures old(Value()).Balanced() ==> Value().Balanced()
    {
      if gasMemory > memory {
        var total := used + gasMemory;
        if total >= TWO_64 || limit < total {
          return false;
        }
        memory := gasMemory;
        allUsedGas := total;
      }
      return true;
    }
  }
}
