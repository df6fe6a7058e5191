/** The counts and the gates that guard them: src/sparkplug/seq.rs. */
module Seq {
  import opened Prelude
  import opened Ids

  /** The count of one edge node and the lock on it; `held` while a reservation lives. */
  class Gate {
    var count: u8
    var held: bool

    constructor ()
      ensures count == 0 && !held
    {
      count, held := 0, false;
    }
  }

  class SeqReservation {
    const gate: Gate
    var restoreTo: Option<u8>

    ghost predicate Live()
      reads this, gate
    {
      gate.held && restoreTo.Some?
    }

    constructor (gate: Gate, previous: u8)
      ensures this.gate == gate && restoreTo == Some(previous)
    {
      this.gate := gate;
      restoreTo := Some(previous);
    }

    /** Deref: the number the next message carries. */
    function Value(): u8
      reads gate
    {
      gate.count
    }

    /** `next`: the DBIRTH of a pair takes the number after the NBIRTH's; what to restore stays. */
    method Next() returns (number: u8)
      requires Live()
      modifies gate`count
      ensures number == gate.count == Succ8(old(gate.count))
    {
      gate.count := Succ8(gate.count);
      number := gate.count;
    }

    method Commit()
      requires Live()
      modifies this, gate
      ensures gate.count == old(gate.count) && !gate.held && restoreTo == None
    {
      restoreTo := None;
      Drop();
    }

    /** `Drop`, and then the guard field releases the gate. */
    method Drop()
      requires gate.held
      modifies this, gate
      ensures gate.count == if old(restoreTo).Some? then old(restoreTo).value else old(gate.count)
      ensures !gate.held && restoreTo == None
    {
      if restoreTo.Some? {
        gate.count := restoreTo.value;
        restoreTo := None;
      }
      gate.held := false;
    }
  }

  class SeqCounters {
    var gates: map<string, Gate>

    ghost predicate Valid()
      reads this
    {
      forall k, l | k in gates && l in gates && k != l :: gates[k] != gates[l]
    }

    /** The count an edge node reads; one the map has not seen reads 0. */
    function CountOf(edge: EdgeNode): u8
      reads this, gates.Values
    {
      if KeyOf(edge) in gates then gates[KeyOf(edge)].count else 0
    }

    /** No reservation lives for the edge node. */
    predicate IsFree(edge: EdgeNode)
      reads this, gates.Values
    {
      KeyOf(edge) in gates ==> !gates[KeyOf(edge)].held
    }

    constructor ()
      ensures Valid() && gates == map[]
    {
      gates := map[];
    }

    method GateOf(edge: EdgeNode) returns (gate: Gate)
      requires Valid()
      modifies this
      ensures Valid()
      ensures gates == old(gates)[KeyOf(edge) := gate]
      ensures KeyOf(edge) in old(gates) ==> gate == old(gates[KeyOf(edge)])
      ensures KeyOf(edge) !in old(gates) ==> fresh(gate) && gate.count == 0 && !gate.held
    {
      var key := KeyOf(edge);
      if key !in gates {
        gate := new Gate();
        gates := gates[key := gate];
      } else {
        gate := gates[key];
      }
    }

    /**
     * `reserve_with`, from the moment the awaited lock is granted: the count moves by `step`, the
     * reservation remembers the number before it, and no other edge node's count moves.
     */
    method ReserveWith(edge: EdgeNode, step: u8 -> u8) returns (r: SeqReservation)
      requires Valid() && IsFree(edge)
      modifies this, if KeyOf(edge) in gates then {gates[KeyOf(edge)]} else {}
      ensures Valid() && fresh(r) && r.Live()
      ensures gates == old(gates)[KeyOf(edge) := r.gate]
      ensures KeyOf(edge) in old(gates) ==> r.gate == old(gates[KeyOf(edge)])
      ensures KeyOf(edge) !in old(gates) ==> fresh(r.gate)
      ensures r.restoreTo == Some(old(CountOf(edge)))
      ensures r.Value() == step(old(CountOf(edge)))
    {
      var gate := GateOf(edge);
      var previous := gate.count;
      gate.held := true;
      gate.count := step(previous);
      r := new SeqReservation(gate, previous);
    }

    method ReserveReset(edge: EdgeNode) returns (r: SeqReservation)
      requires Valid() && IsFree(edge)
      modifies this, if KeyOf(edge) in gates then {gates[KeyOf(edge)]} else {}
      ensures Valid() && fresh(r) && r.Live()
      ensures gates == old(gates)[KeyOf(edge) := r.gate]
      ensures KeyOf(edge) in old(gates) ==> r.gate == old(gates[KeyOf(edge)])
      ensures KeyOf(edge) !in old(gates) ==> fresh(r.gate)
      ensures r.restoreTo == Some(old(CountOf(edge)))
      ensures r.Value() == 0
    {
      r := ReserveWith(edge, _ => 0);
    }

    method Reserve(edge: EdgeNode) returns (r: SeqReservation)
      requires Valid() && IsFree(edge)
      modifies this, if KeyOf(edge) in gates then {gates[KeyOf(edge)]} else {}
      ensures Valid() && fresh(r) && r.Live()
      ensures gates == old(gates)[KeyOf(edge) := r.gate]
      ensures KeyOf(edge) in old(gates) ==> r.gate == old(gates[KeyOf(edge)])
      ensures KeyOf(edge) !in old(gates) ==> fresh(r.gate)
      ensures r.restoreTo == Some(old(CountOf(edge)))
      ensures r.Value() == Succ8(old(CountOf(edge)))
    {
      r := ReserveWith(edge, current => Succ8(current));
    }
  }
}
