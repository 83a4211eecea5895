// Day 24 part one: Crossed Wires. Gates wait in a queue until both of their
// input wires carry a value; the z wires then spell out a binary number.
module Day24 {
  import opened Wrappers
  import opened Bits

  type Byte = x: nat | x < 256

  /** A wire's three-byte name. */
  datatype Wire = Wire(b0: Byte, b1: Byte, b2: Byte)

  datatype GateKind = And | Or | Xor

  datatype Gate = Gate(left: Wire, kind: GateKind, right: Wire, output: Wire)

  /** The value a gate of `kind` puts on its output. */
  function Apply(kind: GateKind, x: bool, y: bool): bool
  {
    match kind
    case And => x && y
    case Or => x || y
    case Xor => x != y
  }

  // ---------------------------------------------------------------------------
  // The work queue.

  /** The gate fires when both of its inputs carry a value: its output gets
      the gate's function of them. `None` when an input is missing. */
  function Fire(wires: map<Wire, bool>, g: Gate): (r: Option<map<Wire, bool>>)
    ensures r.Some? <==> g.left in wires && g.right in wires
    ensures r.Some? ==> r.value.Keys == wires.Keys + {g.output}
    ensures r.Some? ==> r.value[g.output] == Apply(g.kind, wires[g.left], wires[g.right])
    ensures r.Some? ==> forall k :: k in wires && k != g.output ==> r.value[k] == wires[k]
  {
    if g.left in wires && g.right in wires then
      Some(wires[g.output := Apply(g.kind, wires[g.left], wires[g.right])])
    else None
  }

  /** The queue loop, one pop per unit of `fuel`: a gate that fires leaves
      the queue, one that cannot goes to the back. `None` when the fuel runs
      out before the queue empties. */
  function Run(wires: map<Wire, bool>, queue: seq<Gate>, fuel: nat): (r: Option<map<Wire, bool>>)
    ensures r.Some? ==> wires.Keys <= r.value.Keys
    ensures r.Some? ==> forall i :: 0 <= i < |queue| ==> queue[i].output in r.value
    decreases fuel
  {
    if |queue| == 0 then Some(wires)
    else if fuel == 0 then None
    else match Fire(wires, queue[0])
      case Some(next) => Run(next, queue[1..], fuel - 1)
      case None =>
        var rotated := queue[1..] + [queue[0]];
        assert rotated[|queue| - 1] == queue[0];
        assert forall i :: 1 <= i < |queue| ==> queue[i] == rotated[i - 1];
        Run(wires, rotated, fuel - 1)
  }

  /** The `while let Some(gate) = queue.pop_front()` loop of `solve`, with
      `fuel` bounding the number of pops. */
  method Simulate(initial: map<Wire, bool>, gates: seq<Gate>, fuel: nat)
    returns (r: Option<map<Wire, bool>>)
    ensures r == Run(initial, gates, fuel)
  {
    var wires := initial;
    var queue := gates;
    var left := fuel;
    while queue != []
      invariant Run(wires, queue, left) == Run(initial, gates, fuel)
      decreases left
    {
      if left == 0 {
        return None;
      }
      var gate := queue[0];
      queue := queue[1..];
      if gate.left in wires && gate.right in wires {
        var value := Apply(gate.kind, wires[gate.left], wires[gate.right]);
        wires := wires[gate.output := value];
      } else {
        queue := queue + [gate];
      }
      left := left - 1;
    }
    return Some(wires);
  }

  /** More fuel does not change a run that finishes. */
  lemma {:induction false} RunMoreFuel(wires: map<Wire, bool>, queue: seq<Gate>, fuel: nat, more: nat)
    requires Run(wires, queue, fuel).Some? && fuel <= more
    ensures Run(wires, queue, more) == Run(wires, queue, fuel)
    decreases fuel
  {
    if |queue| > 0 {
      match Fire(wires, queue[0])
      case Some(next) => RunMoreFuel(next, queue[1..], fuel - 1, more - 1);
      case None => RunMoreFuel(wires, queue[1..] + [queue[0]], fuel - 1, more - 1);
    }
  }

  /** Moving the front gate to the back keeps the same gates. */
  lemma Rotate(queue: seq<Gate>)
    requires |queue| > 0
    ensures forall g :: g in queue[1..] + [queue[0]] <==> g in queue
    ensures |queue[1..] + [queue[0]]| == |queue|
  {
    assert queue == [queue[0]] + queue[1..];
  }

  // ---------------------------------------------------------------------------
  // What a finished run computes.

  /** The gate's output carries its function of its inputs. */
  predicate Holds(wires: map<Wire, bool>, g: Gate)
  {
    && g.left in wires && g.right in wires && g.output in wires
    && wires[g.output] == Apply(g.kind, wires[g.left], wires[g.right])
  }

  /** No two gates of the list drive the same wire. */
  predicate DistinctOutputs(queue: seq<Gate>)
  {
    forall i, j :: 0 <= i < j < |queue| ==> queue[i].output != queue[j].output
  }

  lemma DistinctRotate(queue: seq<Gate>)
    requires |queue| > 0 && DistinctOutputs(queue)
    ensures DistinctOutputs(queue[1..] + [queue[0]])
  {
    var q := queue[1..] + [queue[0]];
    forall i, j | 0 <= i < j < |q|
      ensures q[i].output != q[j].output
    {
      if j == |q| - 1 {
        assert q[i] == queue[i + 1] && q[j] == queue[0];
      } else {
        assert q[i] == queue[i + 1] && q[j] == queue[j + 1];
      }
    }
  }

  /** The state of the loop on a circuit whose gates each drive their own
      wire: the gates that fired hold, the queued gates' outputs are still
      unset. */
  predicate Good(wires: map<Wire, bool>, fired: set<Gate>, queue: seq<Gate>)
  {
    && (forall g :: g in fired ==> Holds(wires, g))
    && (forall i :: 0 <= i < |queue| ==> queue[i].output !in wires)
    && DistinctOutputs(queue)
  }

  lemma GoodFire(wires: map<Wire, bool>, fired: set<Gate>, queue: seq<Gate>, next: map<Wire, bool>)
    requires |queue| > 0 && Good(wires, fired, queue) && Fire(wires, queue[0]) == Some(next)
    ensures Good(next, fired + {queue[0]}, queue[1..])
    ensures forall k :: k in wires ==> k in next && next[k] == wires[k]
  {
    var g := queue[0];
    forall h | h in fired + {g}
      ensures Holds(next, h)
    {
      if h in fired {
        assert h.left != g.output && h.right != g.output && h.output != g.output;
      }
    }
    forall i | 0 <= i < |queue| - 1
      ensures queue[1..][i].output !in next
    {
      assert queue[1..][i] == queue[i + 1];
    }
  }

  lemma GoodRotate(wires: map<Wire, bool>, fired: set<Gate>, queue: seq<Gate>)
    requires |queue| > 0 && Good(wires, fired, queue)
    ensures Good(wires, fired, queue[1..] + [queue[0]])
  {
    DistinctRotate(queue);
    var q := queue[1..] + [queue[0]];
    forall i | 0 <= i < |q|
      ensures q[i].output !in wires
    {
      if i == |q| - 1 {
        assert q[i] == queue[0];
      } else {
        assert q[i] == queue[i + 1];
      }
    }
  }

  /** A finished run on a circuit whose gates drive distinct, initially unset
      wires: every gate holds at the end, the initial wires keep their
      values, and every wire set is an initial wire or a gate's output. */
  lemma {:induction false} RunConsistent(wires: map<Wire, bool>, fired: set<Gate>, queue: seq<Gate>,
                                         fuel: nat, final: map<Wire, bool>)
    requires Good(wires, fired, queue) && Run(wires, queue, fuel) == Some(final)
    ensures forall g :: g in fired || g in queue ==> Holds(final, g)
    ensures forall k :: k in wires ==> k in final && final[k] == wires[k]
    ensures forall k :: k in final ==> k in wires || exists g :: g in queue && g.output == k
    decreases fuel
  {
    if |queue| > 0 {
      var g := queue[0];
      assert queue == [g] + queue[1..];
      match Fire(wires, g)
      case Some(next) =>
        GoodFire(wires, fired, queue, next);
        RunConsistent(next, fired + {g}, queue[1..], fuel - 1, final);
      case None =>
        GoodRotate(wires, fired, queue);
        Rotate(queue);
        RunConsistent(wires, fired, queue[1..] + [g], fuel - 1, final);
    }
  }

  /** The circuit as the puzzle gives it: no gate drives an initial wire or a
      wire another gate drives. */
  predicate WellFormed(initial: map<Wire, bool>, gates: seq<Gate>)
  {
    DistinctOutputs(gates) && forall i :: 0 <= i < |gates| ==> gates[i].output !in initial
  }

  /** When the loop finishes on a well-formed circuit, every gate's output
      carries the gate's function of its inputs, and the initial wires keep
      their values. */
  lemma CircuitHolds(initial: map<Wire, bool>, gates: seq<Gate>, fuel: nat, final: map<Wire, bool>)
    requires WellFormed(initial, gates) && Run(initial, gates, fuel) == Some(final)
    ensures forall g :: g in gates ==> Holds(final, g)
    ensures forall k :: k in initial ==> k in final && final[k] == initial[k]
    ensures forall k :: k in final ==> k in initial || exists g :: g in gates && g.output == k
  {
    RunConsistent(initial, {}, gates, fuel, final);
  }

  /** The wires of the queue's gates. */
  function Outputs(queue: seq<Gate>): set<Wire>
  {
    set g | g in queue :: g.output
  }

  /** A gate that waits on a wire that is unset and that no queued gate
      drives. */
  predicate WaitsForever(wires: map<Wire, bool>, outputs: set<Wire>, g: Gate)
  {
    (g.left !in wires && g.left !in outputs) || (g.right !in wires && g.right !in outputs)
  }

  /** When every queued gate waits forever, the source's loop never ends:
      the run runs out of any fuel. */
  lemma {:induction false} RunBlocked(wires: map<Wire, bool>, queue: seq<Gate>, fuel: nat)
    requires |queue| > 0
    requires forall g :: g in queue ==> WaitsForever(wires, Outputs(queue), g)
    ensures Run(wires, queue, fuel) == None
    decreases fuel
  {
    if fuel > 0 {
      var g := queue[0];
      assert g in queue;
      assert Fire(wires, g).None?;
      var q := queue[1..] + [g];
      Rotate(queue);
      assert Outputs(q) == Outputs(queue);
      RunBlocked(wires, q, fuel - 1);
    }
  }

  /** The test of blocking: one gate that reads a wire nothing sets. */
  lemma ExampleBlocked(fuel: nat)
    ensures var x, y, z := Wire(120, 48, 48), Wire(121, 48, 48), Wire(122, 48, 48);
      Run(map[x := true], [Gate(x, And, y, z)], fuel) == None
  {
    var x, y, z := Wire(120, 48, 48), Wire(121, 48, 48), Wire(122, 48, 48);
    var g := Gate(x, And, y, z);
    assert Outputs([g]) == {z};
    RunBlocked(map[x := true], [g], fuel);
  }

  /** A gate that waits for another: it goes to the back once and fires
      after the other has. */
  lemma ExampleRequeue()
    ensures var x, y, z0, z1 := Wire(120, 48, 48), Wire(121, 48, 48), Wire(122, 48, 48), Wire(122, 48, 49);
      var gates := [Gate(z0, And, x, z1), Gate(x, Xor, y, z0)];
      Run(map[x := true, y := false], gates, 3) == Some(map[x := true, y := false, z0 := true, z1 := true])
      && Run(map[x := true, y := false], gates, 2) == None
  {
  }

  // ---------------------------------------------------------------------------
  // Assembling the z wires.

  const LetterZ: Byte := 122
  const Digit0: Byte := 48

  predicate IsZ(w: Wire)
  {
    w.b0 == LetterZ
  }

  /** `((name[1] - b'0') * 10 + (name[2] - b'0')) as u64`, then the shift:
      `None` where a `u8` operation overflows or the shift reaches 64, which
      panic in a debug build. */
  function ZPosition(w: Wire): (r: Option<nat>)
    ensures r.Some? ==> r.value < 64
    ensures (&& '0' as int <= w.b1 <= '6' as int && '0' as int <= w.b2 <= '9' as int
             && (w.b1 - Digit0) * 10 + (w.b2 - Digit0) < 64)
      ==> r == Some((w.b1 - Digit0) * 10 + (w.b2 - Digit0))
  {
    if w.b1 < Digit0 || w.b1 - Digit0 > 25 || w.b2 < Digit0 then None
    else
      var p := (w.b1 - Digit0) * 10 + (w.b2 - Digit0);
      if p > 255 || p >= 64 then None else Some(p)
  }

  /** Bit `k` of `x`. */
  function Bit(x: nat, k: nat): bool
  {
    if k == 0 then x % 2 == 1 else Bit(x / 2, k - 1)
  }

  /** `x | (1 << p)`. */
  function SetBit(x: nat, p: nat): nat
  {
    if Bit(x, p) then x else x + Pow2(p)
  }

  lemma {:induction false} AddPowBits(x: nat, p: nat, k: nat)
    requires !Bit(x, p)
    ensures Bit(x + Pow2(p), k) == (Bit(x, k) || k == p)
    decreases k
  {
    if k > 0 {
      if p == 0 {
        assert (x + 1) / 2 == x / 2;
      } else {
        assert (x + Pow2(p)) / 2 == x / 2 + Pow2(p - 1);
        AddPowBits(x / 2, p - 1, k - 1);
      }
    }
  }

  /** Setting bit p sets it and leaves every other bit. */
  lemma SetBitBits(x: nat, p: nat, k: nat)
    ensures Bit(SetBit(x, p), k) == (Bit(x, k) || k == p)
  {
    if !Bit(x, p) {
      AddPowBits(x, p, k);
    }
  }

  lemma {:induction false} ZeroBits(k: nat)
    ensures !Bit(0, k)
  {
    if k > 0 {
      ZeroBits(k - 1);
    }
  }

  /** A number whose bits are all clear is zero. */
  lemma {:induction false} NoBitsZero(x: nat)
    requires forall k: nat :: !Bit(x, k)
    ensures x == 0
    decreases x
  {
    if x > 0 {
      assert !Bit(x, 0);
      forall k: nat
        ensures !Bit(x / 2, k)
      {
        assert !Bit(x, k + 1);
      }
      NoBitsZero(x / 2);
    }
  }

  /** Two numbers with the same bits are equal. */
  lemma {:induction false} SameBits(x: nat, y: nat)
    requires forall k: nat :: Bit(x, k) == Bit(y, k)
    ensures x == y
    decreases x + y
  {
    if x > 0 || y > 0 {
      assert Bit(x, 0) == Bit(y, 0);
      forall k: nat
        ensures Bit(x / 2, k) == Bit(y / 2, k)
      {
        assert Bit(x, k + 1) == Bit(y, k + 1);
      }
      SameBits(x / 2, y / 2);
    }
  }

  /** Every z wire's position computes without a panic. */
  ghost predicate PositionsFine(wires: map<Wire, bool>)
  {
    forall w :: w in wires && IsZ(w) ==> ZPosition(w).Some?
  }

  /** Bit k is set by a true z wire at position k. */
  ghost predicate SetsBit(wires: map<Wire, bool>, k: nat)
  {
    exists w :: w in wires && IsZ(w) && ZPosition(w) == Some(k) && wires[w]
  }

  /** The fold of `solve` over the wires, in whatever order the map is
      iterated: `None` is the panic of a bad z position. */
  method AssembleZ(wires: map<Wire, bool>) returns (r: Option<nat>)
    ensures r.Some? <==> PositionsFine(wires)
    ensures r.Some? ==> forall k: nat :: Bit(r.value, k) <==> SetsBit(wires, k)
  {
    var acc := 0;
    var rest := wires.Keys;
    forall k: nat {
      ZeroBits(k);
    }
    while rest != {}
      invariant rest <= wires.Keys
      invariant forall w :: w in wires.Keys - rest && IsZ(w) ==> ZPosition(w).Some?
      invariant forall k: nat :: Bit(acc, k) <==>
        exists w :: w in wires.Keys - rest && IsZ(w) && ZPosition(w) == Some(k) && wires[w]
      decreases rest
    {
      var w :| w in rest;
      if IsZ(w) {
        var position := ZPosition(w);
        if position.None? {
          return None;
        }
        if wires[w] {
          forall k: nat
            ensures Bit(SetBit(acc, position.value), k) == (Bit(acc, k) || k == position.value)
          {
            SetBitBits(acc, position.value, k);
          }
          acc := SetBit(acc, position.value);
        }
      }
      rest := rest - {w};
    }
    assert wires.Keys - rest == wires.Keys;
    return Some(acc);
  }

  /** Whatever the iteration order, the assembled number is the same: it is
      fixed by its bits. */
  lemma AssembleAnyOrder(wires: map<Wire, bool>, x: nat, y: nat)
    requires forall k: nat :: Bit(x, k) <==> SetsBit(wires, k)
    requires forall k: nat :: Bit(y, k) <==> SetsBit(wires, k)
    ensures x == y
  {
    SameBits(x, y);
  }

  /** `solve` from parsed wires and gates: run the queue, then assemble the
      z wires. `None` when the fuel runs out (the source loops forever) or a
      z position panics. */
  method Solve(initial: map<Wire, bool>, gates: seq<Gate>, fuel: nat) returns (r: Option<nat>)
    ensures Run(initial, gates, fuel).None? ==> r.None?
    ensures Run(initial, gates, fuel).Some? ==> var final := Run(initial, gates, fuel).value;
      (r.Some? <==> PositionsFine(final))
      && (r.Some? ==> forall k: nat :: Bit(r.value, k) <==> SetsBit(final, k))
  {
    var wires := Simulate(initial, gates, fuel);
    if wires.None? {
      return None;
    }
    r := AssembleZ(wires.value);
  }
}
