/**
 * Bookkeeping of the LAMMPS topology generator (`initialize.py`).
 *
 * Polymers are chains of monomers; every monomer holds one alpha bead (type 1) carrying a
 * pendant group (type 3) and otherwise neutral backbone beads (type 2). With `nbeads == 3`
 * every chain also starts with one extra neutral bead. Counterions (type 4, charge z_c) and
 * co-ions (type 5) balance the pendant charges. Atoms are numbered from 1; the arrays
 * `typeb`, `q` and `molnum` keep an unused entry 0.
 */
module Topology {
  import opened Common

  // ---------------------------------------------------------------------------
  // The monomer sequence
  // ---------------------------------------------------------------------------

  /** Python's int() of the float n/2: truncation toward zero. */
  function HalfTrunc(n: int): int
  {
    if n >= 0 then n / 2 else -((-n) / 2)
  }

  /**
   * The bead types of one monomer: with h = nbeads/2, h-1 neutral beads, the alpha bead,
   * its pendant, then neutral beads up to nbeads. Below 2 beads the loop still emits the
   * alpha bead (and for one bead the pendant).
   */
  function MonomerTypes(nbeads: nat): (s: seq<int>)
    ensures forall k :: 0 <= k < |s| ==> 1 <= s[k] <= 3
  {
    if nbeads >= 2 then Const(2, nbeads / 2 - 1) + [1, 3] + Const(2, nbeads - nbeads / 2 - 1)
    else if nbeads == 1 then [1, 3]
    else [1]
  }

  /** Entries appended during the first i passes of the loop: the pass at index h-1 appends nothing. */
  function Emitted(nbeads: nat, i: nat): nat
  {
    if nbeads >= 2 && i > nbeads / 2 - 1 then i - 1 else i
  }

  /** The loop building `sequence`: each index of range(nbeads+1) appends 2, 1, 3 or nothing. */
  method MonomerSequence(nbeads: nat) returns (s: seq<int>)
    ensures s == MonomerTypes(nbeads)
  {
    s := [];
    for i := 0 to nbeads + 1
      invariant Emitted(nbeads, i) <= |MonomerTypes(nbeads)|
      invariant s == MonomerTypes(nbeads)[..Emitted(nbeads, i)]
    {
      // int(nbeads/2+1) is HalfTrunc(nbeads + 2) for nbeads >= 0
      if i < HalfTrunc(nbeads - 2) || i > HalfTrunc(nbeads + 2) {
        s := s + [2];
      } else if i == HalfTrunc(nbeads) {
        s := s + [1];
      } else if i == HalfTrunc(nbeads + 2) {
        s := s + [3];
      }
    }
  }

  /** From two beads on, the monomer has nbeads beads. */
  lemma MonomerLength(nbeads: nat)
    requires nbeads >= 2
    ensures |MonomerTypes(nbeads)| == nbeads
  {
  }

  /** Position of the alpha bead in the monomer. */
  function AlphaIndex(nbeads: nat): nat
  {
    if nbeads >= 2 then nbeads / 2 - 1 else 0
  }

  /** Exactly one alpha bead, immediately followed by the pendant; every other bead is neutral. */
  lemma MonomerShape(nbeads: nat)
    requires nbeads >= 1
    ensures var s, a := MonomerTypes(nbeads), AlphaIndex(nbeads);
      && a + 1 < |s| && s[a] == 1 && s[a + 1] == 3
      && forall k :: 0 <= k < |s| && k != a && k != a + 1 ==> s[k] == 2
  {
  }

  // ---------------------------------------------------------------------------
  // Counts
  // ---------------------------------------------------------------------------

  /** The script's inputs: Nbb+1, Nmono, Npoly, Nion and Z_c. */
  datatype Params = Params(nbeads: nat, nmonomersPerPoly: nat, npoly: nat, nIons: nat, zc: int)

  /** x_y: uncharged x segments per charged monomer (0, so no x monomers). */
  const XY: nat := 0

  /** nxbeads: beads per x monomer. */
  const NxBeads: nat := 1

  datatype Counts = Counts(
    nmonomers: nat, nxmonomers: nat, nchargedMonomers: nat, ncounterions: nat,
    ncoion: nat, chargeCoion: int, npendant: nat, ntot: int, nbonds: int)

  /** Polymer beads: every monomer bead, plus one leading bead per chain when nbeads == 3. */
  function PolymerBeads(p: Params): int
  {
    p.nmonomersPerPoly * p.npoly * p.nbeads + (if p.nbeads == 3 then p.npoly else 0)
  }

  /**
   * The count arithmetic. With x_y = 0 the x-monomer count round(0/1 * nmonomers) is 0 and
   * neutralizedfraction = 1 charges every monomer. The co-ion count is the excess of pendant
   * charge over counterion charge, its sign flipped into `charge_coion`.
   */
  function ComputeCounts(p: Params): (c: Counts)
    ensures c.nmonomers == p.nmonomersPerPoly * p.npoly && c.nxmonomers == 0
    ensures c.nchargedMonomers == c.nmonomers && c.npendant == c.nmonomers && c.ncounterions == p.nIons
    ensures c.chargeCoion == -1 <==> c.nchargedMonomers < p.zc * p.nIons
    ensures c.chargeCoion == 1 <==> c.nchargedMonomers >= p.zc * p.nIons
    ensures c.chargeCoion * c.ncoion == c.nchargedMonomers - p.zc * p.nIons
    ensures c.ntot == PolymerBeads(p) + c.ncounterions + c.ncoion
    ensures c.nbonds == PolymerBeads(p) - p.npoly
  {
    var nmonomers := p.nmonomersPerPoly * p.npoly;
    var nxmonomers := XY * nmonomers;
    var ncharged := nmonomers - nxmonomers;
    var ncounterions := p.nIons;
    var raw := ncharged - p.zc * p.nIons;
    var ncoion: nat := if raw < 0 then -raw else raw;
    var chargeCoion := if raw < 0 then -1 else 1;
    var npendant := nmonomers - nxmonomers;
    var ntot :=
      if p.nbeads == 3 then (nmonomers - nxmonomers) * p.nbeads + nxmonomers * NxBeads + p.npoly + ncounterions + ncoion
      else (nmonomers - nxmonomers) * p.nbeads + nxmonomers * NxBeads + ncounterions + ncoion;
    var nbonds := ntot - ncounterions - p.npoly - ncoion;
    Counts(nmonomers, nxmonomers, ncharged, ncounterions, ncoion, chargeCoion, npendant, ntot, nbonds)
  }

  // ---------------------------------------------------------------------------
  // The atom layout: type, charge and molecule id per atom
  // ---------------------------------------------------------------------------

  /** One atom's entries of `typeb`, `q` and `molnum`. */
  datatype Bead = Bead(btype: int, charge: int, mol: int)

  /** The `charge` dictionary: alpha and neutral beads 0, pendant -1, counterion +1. */
  function TypeCharge(t: int): int
    requires 1 <= t <= 4
  {
    if t == 3 then -1 else if t == 4 then 1 else 0
  }

  /** One monomer of the chain with molecule id `mol`. */
  function MonomerBeads(nbeads: nat, mol: int): (s: seq<Bead>)
    ensures |s| == |MonomerTypes(nbeads)|
    ensures forall k :: 0 <= k < |s| ==> s[k].btype == MonomerTypes(nbeads)[k] && s[k].mol == mol
    ensures forall k :: 0 <= k < |s| ==> s[k] == Bead(MonomerTypes(nbeads)[k], TypeCharge(MonomerTypes(nbeads)[k]), mol)
  {
    var m := MonomerTypes(nbeads);
    seq(|m|, k requires 0 <= k < |m| => Bead(m[k], TypeCharge(m[k]), mol))
  }

  /** n copies of s, one after the other. */
  function Repeat(s: seq<Bead>, n: nat): (r: seq<Bead>)
    ensures |r| == n * |s|
  {
    if n == 0 then [] else Repeat(s, n - 1) + s
  }

  /** The extra neutral bead that starts every chain when nbeads == 3. */
  function Lead(p: Params, mol: int): seq<Bead>
  {
    if p.nbeads == 3 then [Bead(2, 0, mol)] else []
  }

  /** The chain with molecule id `mol`. */
  function Chain(p: Params, mol: int): seq<Bead>
  {
    Lead(p, mol) + Repeat(MonomerBeads(p.nbeads, mol), p.nmonomersPerPoly)
  }

  /** The first n chains, chain ix carrying molecule id ix+1. */
  function Chains(p: Params, n: nat): seq<Bead>
  {
    if n == 0 then [] else Chains(p, n - 1) + Chain(p, n)
  }

  /** Atoms 1..ntot: the chains, then the counterions, then the co-ions (molnum stays 0 for ions). */
  function Layout(p: Params): seq<Bead>
  {
    var c := ComputeCounts(p);
    Chains(p, p.npoly) + Const(Bead(4, p.zc, 0), c.ncounterions) + Const(Bead(5, c.chargeCoion, 0), c.ncoion)
  }

  /** Atoms per chain. */
  function ChainLen(p: Params): nat
  {
    p.nmonomersPerPoly * p.nbeads + (if p.nbeads == 3 then 1 else 0)
  }

  lemma ChainLength(p: Params, mol: int)
    requires p.nbeads >= 2
    ensures |Chain(p, mol)| == ChainLen(p)
  {
    MonomerLength(p.nbeads);
  }

  lemma {:induction false} ChainsLength(p: Params, n: nat)
    requires p.nbeads >= 2
    ensures |Chains(p, n)| == n * ChainLen(p)
  {
    if n > 0 {
      ChainsLength(p, n - 1);
      ChainLength(p, n);
      assert Chains(p, n) == Chains(p, n - 1) + Chain(p, n);
      MulStep(n, ChainLen(p));
    }
  }

  lemma MulMono(a: nat, b: nat, L: nat)
    requires a <= b
    ensures a * L <= b * L
  {
  }

  lemma MulStep(d: nat, L: nat)
    requires d > 0
    ensures (d - 1) * L + L == d * L
    ensures (d - 1) * (L - 1) + (L - 1) == d * (L - 1)
  {
  }

  /** npoly chains of ChainLen beads are the polymer beads. */
  lemma PolymerBeadsIs(p: Params)
    ensures p.npoly * ChainLen(p) == PolymerBeads(p)
  {
    var a := p.nmonomersPerPoly * p.nbeads;
    assert p.npoly * a == p.nmonomersPerPoly * p.npoly * p.nbeads;
    if p.nbeads == 3 {
      assert p.npoly * (a + 1) == p.npoly * a + p.npoly;
    }
  }

  /** The polymer section holds exactly the polymer beads the counts reserve. */
  lemma PolymerLength(p: Params)
    requires p.nbeads >= 2
    ensures |Chains(p, p.npoly)| == PolymerBeads(p)
    ensures |Layout(p)| == ComputeCounts(p).ntot
  {
    ChainsLength(p, p.npoly);
    PolymerBeadsIs(p);
  }

  lemma {:induction false} RepeatGrows(s: seq<Bead>, a: nat, b: nat)
    requires a <= b
    ensures Repeat(s, a) <= Repeat(s, b)
  {
    if a < b {
      RepeatGrows(s, a, b - 1);
      assert Repeat(s, b - 1) <= Repeat(s, b);
    }
  }

  lemma {:induction false} ChainsGrow(p: Params, a: nat, b: nat)
    requires a <= b
    ensures Chains(p, a) <= Chains(p, b)
  {
    if a < b {
      ChainsGrow(p, a, b - 1);
      assert Chains(p, b - 1) <= Chains(p, b);
    }
  }

  // ---------------------------------------------------------------------------
  // Charge neutrality
  // ---------------------------------------------------------------------------

  /** The `q` entries of a run of beads. */
  function Charges(s: seq<Bead>): (c: seq<int>)
    ensures |c| == |s| && forall k :: 0 <= k < |s| ==> c[k] == s[k].charge
  {
    seq(|s|, k requires 0 <= k < |s| => s[k].charge)
  }

  lemma ChargesAppend(a: seq<Bead>, b: seq<Bead>)
    ensures Sum(Charges(a + b)) == Sum(Charges(a)) + Sum(Charges(b))
  {
    assert Charges(a + b) == Charges(a) + Charges(b);
    SumAppend(Charges(a), Charges(b));
  }

  lemma ChargesConst(b: Bead, n: nat)
    ensures Sum(Charges(Const(b, n))) == b.charge * n
  {
    assert Charges(Const(b, n)) == Const(b.charge, n);
    SumConst(b.charge, n);
  }

  /** Every monomer carries the single negative charge of its pendant. */
  lemma MonomerCharge(nbeads: nat, mol: int)
    requires nbeads >= 1
    ensures Sum(Charges(MonomerBeads(nbeads, mol))) == -1
  {
    var c := Charges(MonomerBeads(nbeads, mol));
    if nbeads >= 2 {
      var a, b := nbeads / 2 - 1, nbeads - nbeads / 2 - 1;
      assert c == Const(0, a) + [0, -1] + Const(0, b);
      SumAppend(Const(0, a) + [0, -1], Const(0, b));
      SumAppend(Const(0, a), [0, -1]);
      SumConst(0, a);
      SumConst(0, b);
    } else {
      assert c == [0, -1];
      assert Sum([-1]) == -1 + Sum([]);
      assert Sum([0, -1]) == 0 + Sum([-1]) by { assert [0, -1][1..] == [-1]; }
    }
  }

  lemma {:induction false} RepeatCharge(s: seq<Bead>, n: nat)
    ensures Sum(Charges(Repeat(s, n))) == n * Sum(Charges(s))
  {
    if n > 0 {
      RepeatCharge(s, n - 1);
      ChargesAppend(Repeat(s, n - 1), s);
    }
  }

  lemma ChainCharge(p: Params, mol: int)
    requires p.nbeads >= 1
    ensures Sum(Charges(Chain(p, mol))) == -(p.nmonomersPerPoly as int)
  {
    ChargesAppend(Lead(p, mol), Repeat(MonomerBeads(p.nbeads, mol), p.nmonomersPerPoly));
    RepeatCharge(MonomerBeads(p.nbeads, mol), p.nmonomersPerPoly);
    MonomerCharge(p.nbeads, mol);
    assert Sum(Charges(Lead(p, mol))) == 0;
  }

  lemma {:induction false} ChainsCharge(p: Params, n: nat)
    requires p.nbeads >= 1
    ensures Sum(Charges(Chains(p, n))) == -(n * p.nmonomersPerPoly)
  {
    if n > 0 {
      ChainsCharge(p, n - 1);
      ChainCharge(p, n);
      ChargeStep(Chains(p, n - 1), Chain(p, n), n, p.nmonomersPerPoly);
    }
  }

  /** Appending a chain of charge -N to n-1 such chains gives charge -(n*N). */
  lemma ChargeStep(prev: seq<Bead>, chain: seq<Bead>, n: nat, N: nat)
    requires n > 0 && Sum(Charges(prev)) == -((n - 1) * N) && Sum(Charges(chain)) == -(N as int)
    ensures Sum(Charges(prev + chain)) == -(n * N)
  {
    ChargesAppend(prev, chain);
    assert n * N == (n - 1) * N + N;
  }

  /** Pendant charges, counterion charges and co-ion charges cancel: the system is neutral. */
  lemma LayoutNeutral(p: Params)
    requires p.nbeads >= 1
    ensures Sum(Charges(Layout(p))) == 0
  {
    var c := ComputeCounts(p);
    var N := p.nmonomersPerPoly;
    var ions := Const(Bead(4, p.zc, 0), c.ncounterions);
    var coions := Const(Bead(5, c.chargeCoion, 0), c.ncoion);
    ChainsCharge(p, p.npoly);
    ChargesConst(Bead(4, p.zc, 0), c.ncounterions);
    ChargesConst(Bead(5, c.chargeCoion, 0), c.ncoion);
    CountsBalance(p);
    NeutralParts(Chains(p, p.npoly), ions, coions,
                 -(p.npoly * N), p.zc * c.ncounterions, c.chargeCoion * c.ncoion);
  }

  /** The counterion and co-ion charges together cancel the Nmono*npoly pendant charges. */
  lemma CountsBalance(p: Params)
    ensures var c := ComputeCounts(p);
      -(p.npoly * p.nmonomersPerPoly) + p.zc * c.ncounterions + c.chargeCoion * c.ncoion == 0
  {
    var c := ComputeCounts(p);
    assert p.npoly * p.nmonomersPerPoly == p.nmonomersPerPoly * p.npoly;
  }

  /** Three runs of beads whose charges cancel form a neutral system. */
  lemma NeutralParts(chains: seq<Bead>, ions: seq<Bead>, coions: seq<Bead>, x: int, y: int, z: int)
    requires Sum(Charges(chains)) == x && Sum(Charges(ions)) == y && Sum(Charges(coions)) == z
    requires x + y + z == 0
    ensures Sum(Charges(chains + ions + coions)) == 0
  {
    ChargesAppend(chains + ions, coions);
    ChargesAppend(chains, ions);
  }

  // ---------------------------------------------------------------------------
  // Filling typeb, q and molnum with a running index
  // ---------------------------------------------------------------------------

  /** Atoms from+0 .. from+|s|-1 of the three arrays hold the beads of s. */
  ghost predicate Placed(typeb: array<int>, q: array<int>, molnum: array<int>, s: seq<Bead>, from: nat)
    reads typeb, q, molnum
  {
    && from + |s| <= typeb.Length && from + |s| <= q.Length && from + |s| <= molnum.Length
    && forall j :: 0 <= j < |s| ==>
         typeb[from + j] == s[j].btype && q[from + j] == s[j].charge && molnum[from + j] == s[j].mol
  }

  /** Entry 0 is unused and zero, and every atom above k is still as allocated: all three entries zero. */
  ghost predicate Blank(typeb: array<int>, q: array<int>, molnum: array<int>, k: nat)
    reads typeb, q, molnum
  {
    && 0 < typeb.Length && 0 < q.Length && 0 < molnum.Length
    && typeb[0] == 0 && q[0] == 0 && molnum[0] == 0
    && (forall j :: k < j < typeb.Length ==> typeb[j] == 0)
    && (forall j :: k < j < q.Length ==> q[j] == 0)
    && (forall j :: k < j < molnum.Length ==> molnum[j] == 0)
  }

  /** One atom's three entries, written at index k right after the beads already placed. */
  method PlaceBead(typeb: array<int>, q: array<int>, molnum: array<int>, k: nat, b: Bead, ghost before: seq<Bead>)
    requires typeb != q && q != molnum && typeb != molnum
    requires k == |before| + 1 && k < typeb.Length && typeb.Length == q.Length == molnum.Length
    requires Placed(typeb, q, molnum, before, 1) && Blank(typeb, q, molnum, k - 1)
    modifies typeb, q, molnum
    ensures Placed(typeb, q, molnum, before + [b], 1) && Blank(typeb, q, molnum, k)
  {
    typeb[k] := b.btype;
    q[k] := b.charge;
    molnum[k] := b.mol;
  }

  /** The innermost loop: one monomer's beads, each written at the next index k. */
  method FillMonomer(s: seq<int>, mol: int, typeb: array<int>, q: array<int>, molnum: array<int>,
                     k0: nat, ghost before: seq<Bead>, ghost mb: seq<Bead>) returns (k: nat)
    requires |mb| == |s| && forall j :: 0 <= j < |s| ==> 1 <= s[j] <= 4 && mb[j] == Bead(s[j], TypeCharge(s[j]), mol)
    requires typeb != q && q != molnum && typeb != molnum
    requires k0 == |before| && k0 + |s| < typeb.Length && typeb.Length == q.Length == molnum.Length
    requires Placed(typeb, q, molnum, before, 1) && Blank(typeb, q, molnum, k0)
    modifies typeb, q, molnum
    ensures k == k0 + |s|
    ensures Placed(typeb, q, molnum, before + mb, 1)
    ensures Blank(typeb, q, molnum, k)
  {
    k := k0;
    for j := 0 to |s|
      invariant k == k0 + j
      invariant Placed(typeb, q, molnum, before + mb[..j], 1)
      invariant Blank(typeb, q, molnum, k)
    {
      var iz := s[j];
      k := k + 1;
      PlaceBead(typeb, q, molnum, k, Bead(iz, TypeCharge(iz), mol), before + mb[..j]);
      assert before + mb[..j + 1] == before + mb[..j] + [mb[j]];
    }
    assert mb[..|s|] == mb;
  }

  /** The chain's leading neutral bead, written only when nbeads == 3. */
  method FillLead(p: Params, ix: nat, typeb: array<int>, q: array<int>, molnum: array<int>,
                  k0: nat, ghost before: seq<Bead>) returns (k: nat)
    requires typeb != q && q != molnum && typeb != molnum
    requires k0 == |before| && k0 + |Lead(p, ix + 1)| < typeb.Length
    requires typeb.Length == q.Length == molnum.Length
    requires Placed(typeb, q, molnum, before, 1) && Blank(typeb, q, molnum, k0)
    modifies typeb, q, molnum
    ensures k == k0 + |Lead(p, ix + 1)|
    ensures Placed(typeb, q, molnum, before + Lead(p, ix + 1), 1)
    ensures Blank(typeb, q, molnum, k)
  {
    k := k0;
    if p.nbeads == 3 {
      k := k + 1;
      PlaceBead(typeb, q, molnum, k, Bead(2, 0, ix + 1), before);
    } else {
      assert before + Lead(p, ix + 1) == before;
    }
  }

  /** Monomer iy of N still fits in the arrays when the whole chain does. */
  lemma MonomerFits(start: nat, mb: seq<Bead>, iy: nat, N: nat, len: int)
    requires iy < N && start + |Repeat(mb, N)| < len
    ensures start + |Repeat(mb, iy)| + |mb| < len
  {
    MulMono(iy + 1, N, |mb|);
    MulStep(iy + 1, |mb|);
  }

  /** One chain: the leading bead when nbeads == 3, then every monomer. */
  method FillChain(p: Params, s: seq<int>, ix: nat, typeb: array<int>, q: array<int>, molnum: array<int>,
                   k0: nat, ghost before: seq<Bead>) returns (k: nat)
    requires p.nbeads >= 2 && s == MonomerTypes(p.nbeads)
    requires typeb != q && q != molnum && typeb != molnum
    requires k0 == |before| && k0 + |Chain(p, ix + 1)| < typeb.Length
    requires typeb.Length == q.Length == molnum.Length
    requires Placed(typeb, q, molnum, before, 1) && Blank(typeb, q, molnum, k0)
    modifies typeb, q, molnum
    ensures k == k0 + |Chain(p, ix + 1)|
    ensures Placed(typeb, q, molnum, before + Chain(p, ix + 1), 1)
    ensures Blank(typeb, q, molnum, k)
  {
    k := FillLead(p, ix, typeb, q, molnum, k0, before);
    ghost var lead := Lead(p, ix + 1);
    ghost var mb := MonomerBeads(p.nbeads, ix + 1);
    var N := p.nmonomersPerPoly;
    assert Chain(p, ix + 1) == lead + Repeat(mb, N);
    ghost var built := before + lead;
    for iy := 0 to N
      invariant built == before + lead + Repeat(mb, iy) && k == |built|
      invariant Placed(typeb, q, molnum, built, 1)
      invariant Blank(typeb, q, molnum, k)
    {
      MonomerFits(|before| + |lead|, mb, iy, N, typeb.Length);
      k := FillMonomer(s, ix + 1, typeb, q, molnum, k, built, mb);
      built := built + mb;
    }
    assert built == before + Chain(p, ix + 1);
  }

  /** Every chain in turn: chain ix fills the next |Chain| atoms with molecule id ix+1. */
  method FillPolymer(p: Params, s: seq<int>, typeb: array<int>, q: array<int>, molnum: array<int>) returns (k: nat)
    requires p.nbeads >= 2 && s == MonomerTypes(p.nbeads)
    requires typeb != q && q != molnum && typeb != molnum
    requires PolymerBeads(p) < typeb.Length && typeb.Length == q.Length == molnum.Length
    requires Blank(typeb, q, molnum, 0)
    modifies typeb, q, molnum
    ensures k == PolymerBeads(p)
    ensures Placed(typeb, q, molnum, Chains(p, p.npoly), 1)
    ensures Blank(typeb, q, molnum, k)
  {
    PolymerLength(p);
    k := 0;
    for ix := 0 to p.npoly
      invariant k == |Chains(p, ix)|
      invariant Placed(typeb, q, molnum, Chains(p, ix), 1)
      invariant Blank(typeb, q, molnum, k)
    {
      ChainsGrow(p, ix + 1, p.npoly);
      k := FillChain(p, s, ix, typeb, q, molnum, k, Chains(p, ix));
    }
  }

  /**
   * The ion loop: the n atoms after `before` get type t and charge `charge`; their molnum
   * entries are left at 0.
   */
  method FillIons(typeb: array<int>, q: array<int>, molnum: array<int>, ghost before: seq<Bead>,
                  base: nat, t: int, charge: int, n: nat)
    requires base == |before|
    requires typeb != q && q != molnum && typeb != molnum
    requires |before| + n < typeb.Length && typeb.Length == q.Length == molnum.Length
    requires Placed(typeb, q, molnum, before, 1) && Blank(typeb, q, molnum, |before|)
    modifies typeb, q
    ensures Placed(typeb, q, molnum, before + Const(Bead(t, charge, 0), n), 1)
    ensures Blank(typeb, q, molnum, |before| + n)
  {
    ghost var ion := Bead(t, charge, 0);
    for ii := 1 to n + 1
      invariant Placed(typeb, q, molnum, before + Const(ion, ii - 1), 1)
      invariant Blank(typeb, q, molnum, |before| + ii - 1)
    {
      var at := ii + base;
      typeb[at] := t;
      q[at] := charge;
      assert before + Const(ion, ii) == before + Const(ion, ii - 1) + [ion];
    }
  }

  /**
   * The polymer section: allocates typeb, q and molnum with ntot+1 zero entries and writes the
   * chains from atom 1. The atoms after the chains stay zero until the ions are placed.
   */
  method BuildPolymer(p: Params) returns (typeb: array<int>, q: array<int>, molnum: array<int>)
    requires p.nbeads >= 2
    ensures fresh(typeb) && fresh(q) && fresh(molnum)
    ensures typeb != q && q != molnum && typeb != molnum
    ensures typeb.Length == q.Length == molnum.Length == ComputeCounts(p).ntot + 1
    ensures Placed(typeb, q, molnum, Chains(p, p.npoly), 1)
    ensures Blank(typeb, q, molnum, PolymerBeads(p))
  {
    var c := ComputeCounts(p);
    var s := MonomerSequence(p.nbeads);
    PolymerLength(p);
    var dim := c.ntot + 1;
    typeb := new int[dim](_ => 0);
    q := new int[dim](_ => 0);
    molnum := new int[dim](_ => 0);
    var k := FillPolymer(p, s, typeb, q, molnum);
  }

  /**
   * The two ion loops after the polymer section: counterions at ntot-ncounterions-ncoion+1 ..
   * ntot-ncoion (type 4, charge z_c), co-ions at the last ncoion atoms (type 5, charge
   * charge_coion). The arrays then hold the whole layout, and the charges sum to zero.
   */
  method AddIons(p: Params, typeb: array<int>, q: array<int>, molnum: array<int>)
    requires p.nbeads >= 2
    requires typeb != q && q != molnum && typeb != molnum
    requires typeb.Length == q.Length == molnum.Length == ComputeCounts(p).ntot + 1
    requires Placed(typeb, q, molnum, Chains(p, p.npoly), 1)
    requires Blank(typeb, q, molnum, PolymerBeads(p))
    modifies typeb, q
    ensures typeb[0] == 0 && q[0] == 0 && molnum[0] == 0
    ensures Placed(typeb, q, molnum, Layout(p), 1)
    ensures Sum(q[..]) == 0
  {
    var c := ComputeCounts(p);
    PolymerLength(p);
    FillIons(typeb, q, molnum, Chains(p, p.npoly), c.ntot - c.ncounterions - c.ncoion,
             4, p.zc, c.ncounterions);
    FillIons(typeb, q, molnum, Chains(p, p.npoly) + Const(Bead(4, p.zc, 0), c.ncounterions),
             c.ntot - c.ncoion, 5, c.chargeCoion, c.ncoion);
    LayoutNeutral(p);
    PlacedCharges(typeb, q, molnum, Layout(p));
  }

  /** A charge array holding a neutral layout from atom 1, with entry 0 zero, sums to zero. */
  lemma PlacedCharges(typeb: array<int>, q: array<int>, molnum: array<int>, s: seq<Bead>)
    requires q.Length == |s| + 1 && q[0] == 0
    requires Placed(typeb, q, molnum, s, 1)
    requires Sum(Charges(s)) == 0
    ensures Sum(q[..]) == 0
  {
    forall i | 1 <= i < q.Length
      ensures q[i] == ([0] + Charges(s))[i]
    {
      var j := i - 1;
      assert q[1 + j] == s[j].charge;
    }
    assert q[..] == [0] + Charges(s);
    assert ([0] + Charges(s))[1..] == Charges(s);
  }
}
