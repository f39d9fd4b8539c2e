/**
 * The atom records' molecule ids and the bond list of the topology generator
 * (`initialize.py`), over the `typeb` and `molnum` arrays built by `Topology`.
 */
module Bonds {
  import opened Common
  import opened Topology

  // ---------------------------------------------------------------------------
  // The bond loop
  // ---------------------------------------------------------------------------

  /** One line of the Bonds section: bond number, bond type, the two atoms. */
  datatype Bond = Bond(id: nat, btype: int, a: int, b: int)

  /**
   * Why the script stops: `molnum[i+1]` read past the end of the array in the bond loop;
   * `ntot/vol` in the density report with a box of volume 0, which happens exactly when there
   * are no atoms (ZeroDivisionError); the end-to-end step of the polymer section reading
   * `xc[k2]`, one past the last chain, when no atom follows the chains; `rg2ave/npoly` with no
   * chains (ZeroDivisionError); or `k1` read before any assignment when chains have no
   * monomers and no leading bead (NameError).
   */
  datatype ScriptError =
    IndexOutOfRange(index: nat) | EmptyBox | EndToEndOutOfRange(atom: int) | NoChains | FirstBeadUnset

  /** Number of i in 1..n whose successor i+1 has the same molecule id: the value of `ibond`. */
  function SameCount(m: seq<int>, n: nat): (c: nat)
    requires n == 0 || n + 1 < |m|
    ensures c <= n
  {
    if n == 0 then 0 else SameCount(m, n - 1) + (if m[n + 1] == m[n] then 1 else 0)
  }

  /**
   * The record written at atom i with bond number id: alpha beads bond to their pendant
   * (type 2), a pendant's backbone bond runs from its alpha i-1 to i+1, neutral beads bond
   * to i+1; other bead types write nothing.
   */
  function BondAt(t: seq<int>, i: nat, id: nat): seq<Bond>
    requires i < |t|
  {
    if t[i] == 1 then [Bond(id, 2, i, i + 1)]
    else if t[i] == 3 then [Bond(id, 1, i - 1, i + 1)]
    else if t[i] == 2 then [Bond(id, 1, i, i + 1)]
    else []
  }

  /** The records written while i runs over 1..n. */
  function BondsUpTo(t: seq<int>, m: seq<int>, n: nat): seq<Bond>
    requires n < |t| && (n == 0 || n + 1 < |m|)
  {
    if n == 0 then []
    else BondsUpTo(t, m, n - 1) + (if m[n + 1] == m[n] then BondAt(t, n, SameCount(m, n)) else [])
  }

  /**
   * The bond loop over the polymer atoms 1..nPolymer. Reading `molnum[nPolymer+1]` fails
   * when no ion follows the polymers.
   */
  method WriteBonds(typeb: array<int>, molnum: array<int>, nPolymer: nat) returns (r: Result<seq<Bond>, ScriptError>)
    requires nPolymer < typeb.Length && typeb.Length == molnum.Length
    ensures r.Failure? <==> 1 <= nPolymer && nPolymer + 1 == molnum.Length
    ensures r.Failure? ==> r.error == IndexOutOfRange(nPolymer + 1)
    ensures r.Success? ==> r.value == BondsUpTo(typeb[..], molnum[..], nPolymer)
  {
    var bonds: seq<Bond> := [];
    var ibond: nat := 0;
    for i := 1 to nPolymer + 1
      invariant i == 1 || i < molnum.Length
      invariant ibond == SameCount(molnum[..], i - 1)
      invariant bonds == BondsUpTo(typeb[..], molnum[..], i - 1)
    {
      if i + 1 == molnum.Length {
        return Failure(IndexOutOfRange(i + 1));
      }
      if molnum[i + 1] == molnum[i] {
        ibond := ibond + 1;
        if typeb[i] == 1 {
          bonds := bonds + [Bond(ibond, 2, i, i + 1)];
        } else if typeb[i] == 3 {
          bonds := bonds + [Bond(ibond, 1, i - 1, i + 1)];
        } else if typeb[i] == 2 {
          bonds := bonds + [Bond(ibond, 1, i, i + 1)];
        }
      }
    }
    return Success(bonds);
  }

  // ---------------------------------------------------------------------------
  // What the loop produces on a well-formed polymer section
  // ---------------------------------------------------------------------------

  /**
   * The shape the bond loop relies on: atoms 1..n are polymer beads of type 1..3 with a
   * positive molecule id; atom n+1 exists and belongs to no chain; every alpha bead is
   * followed, and every pendant preceded, by its partner in the same chain.
   */
  ghost predicate WellFormed(t: seq<int>, m: seq<int>, n: nat)
  {
    && |t| == |m| && n + 1 < |m| && m[n + 1] == 0
    && (forall i :: 1 <= i <= n ==> 1 <= t[i] <= 3 && m[i] >= 1)
    && (forall i :: 1 <= i <= n && t[i] == 1 ==> i < n && t[i + 1] == 3 && m[i + 1] == m[i])
    && (forall i :: 1 <= i <= n && t[i] == 3 ==> 1 < i && t[i - 1] == 1 && m[i - 1] == m[i])
  }

  /** Bonds are numbered 1, 2, ... in order, one per atom followed by an atom of its own chain. */
  lemma {:induction false} BondsNumbered(t: seq<int>, m: seq<int>, P: nat, n: nat)
    requires WellFormed(t, m, P) && n <= P
    ensures |BondsUpTo(t, m, n)| == SameCount(m, n)
    ensures forall k :: 0 <= k < |BondsUpTo(t, m, n)| ==> BondsUpTo(t, m, n)[k].id == k + 1
  {
    if n > 0 {
      BondsNumbered(t, m, P, n - 1);
    }
  }

  /** A bond joins two distinct polymer atoms of one chain; type 2 exactly for alpha-pendant bonds. */
  ghost predicate GoodBond(t: seq<int>, m: seq<int>, P: nat, bond: Bond)
    requires |t| == |m| && P < |m|
  {
    && 1 <= bond.a < bond.b <= P
    && m[bond.a] == m[bond.b]
    && (bond.btype == 1 || bond.btype == 2)
    && (bond.btype == 2 <==> t[bond.a] == 1 && t[bond.b] == 3)
  }

  lemma {:induction false} BondsInChain(t: seq<int>, m: seq<int>, P: nat, n: nat)
    requires WellFormed(t, m, P) && n <= P
    ensures forall k :: 0 <= k < |BondsUpTo(t, m, n)| ==> GoodBond(t, m, P, BondsUpTo(t, m, n)[k])
  {
    if n > 0 {
      BondsInChain(t, m, P, n - 1);
      if m[n + 1] == m[n] {
        assert n < P;
        var b := BondAt(t, n, SameCount(m, n));
        assert forall k :: 0 <= k < |b| ==> GoodBond(t, m, P, b[k]);
      }
    }
  }

  /** Number of bonds with atom x as an endpoint. */
  function Touches(bonds: seq<Bond>, x: int): nat
  {
    if bonds == [] then 0
    else Touches(bonds[..|bonds| - 1], x) + (if bonds[|bonds| - 1].a == x || bonds[|bonds| - 1].b == x then 1 else 0)
  }

  lemma TouchesAppend(bonds: seq<Bond>, extra: seq<Bond>, x: int)
    requires |extra| <= 1
    ensures Touches(bonds + extra, x) == Touches(bonds, x) + Touches(extra, x)
  {
    if |extra| == 1 {
      assert (bonds + extra)[..|bonds + extra| - 1] == bonds;
      assert extra[..0] == [];
    } else {
      assert bonds + extra == bonds;
    }
  }

  /** A pendant x is bonded once, to its alpha bead x-1; the loop reaches that bond at i = x-1. */
  lemma {:induction false} PendantTouches(t: seq<int>, m: seq<int>, P: nat, x: nat, n: nat)
    requires WellFormed(t, m, P) && n <= P && 1 <= x <= P && t[x] == 3
    ensures Touches(BondsUpTo(t, m, n), x) == (if n >= x - 1 then 1 else 0)
  {
    if n > 0 {
      PendantTouches(t, m, P, x, n - 1);
      var extra := if m[n + 1] == m[n] then BondAt(t, n, SameCount(m, n)) else [];
      TouchesAppend(BondsUpTo(t, m, n - 1), extra, x);
      if n == x - 1 {
        assert extra == [Bond(SameCount(m, n), 2, n, x)];
      } else if extra != [] {
        assert Touches(extra, x) == 0 by {
          assert extra[..0] == [];
        }
      }
    }
  }

  /** On a well-formed section, every pendant has exactly one bond. */
  lemma PendantOnce(t: seq<int>, m: seq<int>, P: nat, x: nat)
    requires WellFormed(t, m, P) && 1 <= x <= P && t[x] == 3
    ensures Touches(BondsUpTo(t, m, P), x) == 1
  {
    PendantTouches(t, m, P, x, P);
  }

  // ---------------------------------------------------------------------------
  // The built layout is well formed
  // ---------------------------------------------------------------------------

  /** The `typeb` and `molnum` arrays of a layout, with the unused entry 0. */
  function TypesOf(s: seq<Bead>): (t: seq<int>)
    ensures |t| == |s| + 1 && t[0] == 0 && forall k :: 0 <= k < |s| ==> t[k + 1] == s[k].btype
  {
    [0] + seq(|s|, k requires 0 <= k < |s| => s[k].btype)
  }

  function MolsOf(s: seq<Bead>): (m: seq<int>)
    ensures |m| == |s| + 1 && m[0] == 0 && forall k :: 0 <= k < |s| ==> m[k + 1] == s[k].mol
  {
    [0] + seq(|s|, k requires 0 <= k < |s| => s[k].mol)
  }

  /** Every bead is a polymer bead of a chain; alpha and pendant beads come in adjacent pairs. */
  ghost predicate Paired(s: seq<Bead>)
  {
    && (forall k :: 0 <= k < |s| ==> 1 <= s[k].btype <= 3 && s[k].mol >= 1)
    && (forall k :: 0 <= k < |s| && s[k].btype == 1 ==> k + 1 < |s| && s[k + 1].btype == 3 && s[k + 1].mol == s[k].mol)
    && (forall k :: 0 <= k < |s| && s[k].btype == 3 ==> 0 < k && s[k - 1].btype == 1 && s[k - 1].mol == s[k].mol)
  }

  lemma PairedAppend(a: seq<Bead>, b: seq<Bead>)
    requires Paired(a) && Paired(b)
    ensures Paired(a + b)
  {
    var s := a + b;
    forall k | 0 <= k < |s| && s[k].btype == 1
      ensures k + 1 < |s| && s[k + 1].btype == 3 && s[k + 1].mol == s[k].mol
    {
      if k < |a| {
        assert a[k].btype == 1;
      } else {
        assert b[k - |a|].btype == 1;
      }
    }
    forall k | 0 <= k < |s| && s[k].btype == 3
      ensures 0 < k && s[k - 1].btype == 1 && s[k - 1].mol == s[k].mol
    {
      if k < |a| {
        assert a[k].btype == 3;
      } else {
        assert b[k - |a|].btype == 3;
      }
    }
  }

  lemma MonomerPaired(nbeads: nat, mol: int)
    requires nbeads >= 1 && mol >= 1
    ensures Paired(MonomerBeads(nbeads, mol))
  {
    MonomerShape(nbeads);
  }

  lemma {:induction false} RepeatPaired(s: seq<Bead>, n: nat)
    requires Paired(s)
    ensures Paired(Repeat(s, n))
  {
    if n > 0 {
      RepeatPaired(s, n - 1);
      PairedAppend(Repeat(s, n - 1), s);
    }
  }

  lemma {:induction false} ChainsPaired(p: Params, n: nat)
    requires p.nbeads >= 1
    ensures Paired(Chains(p, n))
  {
    if n > 0 {
      var prev, chain := Chains(p, n - 1), Chain(p, n);
      ChainsPaired(p, n - 1);
      ChainPaired(p, n);
      assert Paired(prev) && Paired(chain);
      PairedAppend(prev, chain);
      assert Chains(p, n) == prev + chain;
    }
  }

  lemma ChainPaired(p: Params, mol: int)
    requires p.nbeads >= 1 && mol >= 1
    ensures Paired(Chain(p, mol))
  {
    var rep := Repeat(MonomerBeads(p.nbeads, mol), p.nmonomersPerPoly);
    MonomerPaired(p.nbeads, mol);
    RepeatPaired(MonomerBeads(p.nbeads, mol), p.nmonomersPerPoly);
    assert Paired(Lead(p, mol));
    PairedAppend(Lead(p, mol), rep);
  }

  /** With at least one ion after the chains, the built arrays are well formed. */
  lemma LayoutWellFormed(p: Params)
    requires p.nbeads >= 2
    requires ComputeCounts(p).ncounterions + ComputeCounts(p).ncoion >= 1
    ensures WellFormed(TypesOf(Layout(p)), MolsOf(Layout(p)), PolymerBeads(p))
  {
    PolymerLength(p);
    ChainsPaired(p, p.npoly);
    var c := ComputeCounts(p);
    var ions := Const(Bead(4, p.zc, 0), c.ncounterions) + Const(Bead(5, c.chargeCoion, 0), c.ncoion);
    assert Layout(p) == Chains(p, p.npoly) + ions;
    assert ions[0].mol == 0;
    PairedPrefixWellFormed(Chains(p, p.npoly), ions);
  }

  /** Paired chains followed by at least one bead outside every chain are well formed. */
  lemma PairedPrefixWellFormed(chains: seq<Bead>, ions: seq<Bead>)
    requires Paired(chains) && |ions| >= 1 && ions[0].mol == 0
    ensures WellFormed(TypesOf(chains + ions), MolsOf(chains + ions), |chains|)
  {
    var L := chains + ions;
    var t, m, n := TypesOf(L), MolsOf(L), |chains|;
    forall i | 1 <= i <= n
      ensures t[i] == chains[i - 1].btype && m[i] == chains[i - 1].mol
    {
      assert L[i - 1] == chains[i - 1];
    }
    assert m[n + 1] == 0 by {
      assert L[n] == ions[0];
    }
    forall i | 1 <= i <= n && t[i] == 1
      ensures i < n && t[i + 1] == 3 && m[i + 1] == m[i]
    {
      assert chains[i - 1].btype == 1;
    }
    forall i | 1 <= i <= n && t[i] == 3
      ensures 1 < i && t[i - 1] == 1 && m[i - 1] == m[i]
    {
      assert chains[i - 1].btype == 3;
    }
  }

  /** Arrays holding a layout from atom 1, with entry 0 zero, are that layout's views. */
  lemma PlacedViews(typeb: array<int>, q: array<int>, molnum: array<int>, s: seq<Bead>)
    requires typeb.Length == molnum.Length == |s| + 1
    requires typeb[0] == 0 && molnum[0] == 0
    requires Placed(typeb, q, molnum, s, 1)
    ensures typeb[..] == TypesOf(s) && molnum[..] == MolsOf(s)
  {
    forall i | 1 <= i < typeb.Length
      ensures typeb[i] == TypesOf(s)[i] && molnum[i] == MolsOf(s)[i]
    {
      var j := i - 1;
      assert typeb[1 + j] == s[j].btype && molnum[1 + j] == s[j].mol;
    }
  }

  // ---------------------------------------------------------------------------
  // Molecule ids and the bond count
  // ---------------------------------------------------------------------------

  lemma {:induction false} RepeatMol(s: seq<Bead>, n: nat, v: int)
    requires forall k :: 0 <= k < |s| ==> s[k].mol == v
    ensures forall k :: 0 <= k < |Repeat(s, n)| ==> Repeat(s, n)[k].mol == v
  {
    if n > 0 {
      RepeatMol(s, n - 1, v);
    }
  }

  lemma ChainMol(p: Params, mol: int)
    ensures forall k :: 0 <= k < |Chain(p, mol)| ==> Chain(p, mol)[k].mol == mol
  {
    RepeatMol(MonomerBeads(p.nbeads, mol), p.nmonomersPerPoly, mol);
  }

  /** Within the first n chains, chain d occupies positions d*L .. d*L+L-1. */
  lemma ChainsBlock(p: Params, n: nat, d: nat, r: nat)
    requires p.nbeads >= 2 && d < n && r < ChainLen(p)
    ensures d * ChainLen(p) + r < |Chains(p, n)|
    ensures Chains(p, n)[d * ChainLen(p) + r].mol == d + 1
  {
    ChainsLength(p, d);
    ChainLength(p, d + 1);
    ChainsGrow(p, d + 1, n);
    ChainMol(p, d + 1);
    assert Chains(p, d + 1) == Chains(p, d) + Chain(p, d + 1);
    BlockAt(Chains(p, d), Chain(p, d + 1), Chains(p, n), r);
  }

  /** A block that follows `prefix` inside `whole` is read at offset |prefix|. */
  lemma BlockAt(prefix: seq<Bead>, block: seq<Bead>, whole: seq<Bead>, r: nat)
    requires prefix + block <= whole && r < |block|
    ensures |prefix| + r < |whole| && whole[|prefix| + r] == block[r]
  {
    assert (prefix + block)[|prefix| + r] == block[r];
  }

  /** Chain ix occupies the contiguous block of atoms ix*L+1 .. ix*L+L, all with molnum ix+1. */
  lemma ChainBlocks(p: Params, d: nat, r: nat)
    requires p.nbeads >= 2 && d < p.npoly && r < ChainLen(p)
    ensures d * ChainLen(p) + r < PolymerBeads(p)
    ensures |MolsOf(Layout(p))| == ComputeCounts(p).ntot + 1
    ensures MolsOf(Layout(p))[d * ChainLen(p) + r + 1] == d + 1
  {
    PolymerLength(p);
    ChainsBlock(p, p.npoly, d, r);
    var c := ComputeCounts(p);
    MulMono(0, d, ChainLen(p));
    PrefixAt(Chains(p, p.npoly), Const(Bead(4, p.zc, 0), c.ncounterions),
             Const(Bead(5, c.chargeCoion, 0), c.ncoion), d * ChainLen(p) + r);
  }

  lemma PrefixAt(a: seq<Bead>, b: seq<Bead>, c: seq<Bead>, k: nat)
    requires k < |a|
    ensures (a + b + c)[k] == a[k]
  {
  }

  /** The atom after the polymers is an ion, with molnum 0. */
  lemma IonAfterChains(p: Params)
    requires p.nbeads >= 2
    requires ComputeCounts(p).ncounterions + ComputeCounts(p).ncoion >= 1
    ensures PolymerBeads(p) + 1 < |MolsOf(Layout(p))|
    ensures MolsOf(Layout(p))[PolymerBeads(p) + 1] == 0
    ensures PolymerBeads(p) == p.npoly * ChainLen(p)
  {
    PolymerLength(p);
    ChainsLength(p, p.npoly);
  }

  /** Polymer beads carry a chain id in 1..npoly; ions keep molnum 0. */
  lemma {:induction false} ChainsMolRange(p: Params, n: nat)
    ensures forall k :: 0 <= k < |Chains(p, n)| ==> 1 <= Chains(p, n)[k].mol <= n
  {
    if n > 0 {
      ChainsMolRange(p, n - 1);
      ChainMol(p, n);
    }
  }

  /** In a block of L equal ids followed by a different one, all but the last atom match their successor. */
  lemma {:induction false} BlockCount(m: seq<int>, base: nat, L: nat, j: nat, v: int)
    requires base + L + 1 < |m| && j <= L && L >= 1
    requires forall k :: base < k <= base + L ==> m[k] == v
    requires m[base + L + 1] != v
    ensures SameCount(m, base + j) == SameCount(m, base) + (if j < L then j else L - 1)
  {
    if j > 0 {
      BlockCount(m, base, L, j - 1, v);
    }
  }

  /** molnum of the r-th atom of chain d, when chains are L atoms long (0 past the end). */
  ghost function At(m: seq<int>, L: nat, d: nat, r: nat): int
  {
    if d * L + r + 1 < |m| then m[d * L + r + 1] else 0
  }

  /** Atoms 1..n*L form n blocks of L atoms with ids 1..n, followed by an atom of no chain. */
  ghost predicate ChainIds(m: seq<int>, n: nat, L: nat)
  {
    && n * L + 1 < |m| && m[n * L + 1] == 0
    && forall d, r :: 0 <= d < n && 0 <= r < L ==> At(m, L, d, r) == d + 1
  }

  lemma {:induction false} ChainsCount(m: seq<int>, n: nat, L: nat, d: nat)
    requires ChainIds(m, n, L) && L >= 1 && d <= n
    ensures d * L + 1 < |m|
    ensures SameCount(m, d * L) == d * (L - 1)
  {
    MulMono(d, n, L);
    if d > 0 {
      ChainsCount(m, n, L, d - 1);
      MulStep(d, L);
      var base := (d - 1) * L;
      forall k | base < k <= base + L
        ensures m[k] == d
      {
        assert At(m, L, d - 1, k - base - 1) == d;
      }
      if d < n {
        assert At(m, L, d, 0) == d + 1;
      }
      BlockCount(m, base, L, L, d);
    }
  }

  /** The built molnum array is laid out in chain blocks. */
  lemma LayoutChainIds(p: Params)
    requires p.nbeads >= 2
    requires ComputeCounts(p).ncounterions + ComputeCounts(p).ncoion >= 1
    ensures ChainIds(MolsOf(Layout(p)), p.npoly, ChainLen(p))
  {
    IonAfterChains(p);
    forall d, r | 0 <= d < p.npoly && 0 <= r < ChainLen(p)
      ensures At(MolsOf(Layout(p)), ChainLen(p), d, r) == d + 1
    {
      ChainBlocks(p, d, r);
    }
  }

  /**
   * On a well-formed polymer section the bond loop numbers its bonds 1, 2, ..., joins two
   * atoms of one chain with each, uses type 2 exactly between an alpha bead and its pendant,
   * and bonds every pendant exactly once.
   */
  lemma SectionBonds(t: seq<int>, m: seq<int>, P: nat)
    requires WellFormed(t, m, P)
    ensures |BondsUpTo(t, m, P)| == SameCount(m, P)
    ensures forall k :: 0 <= k < |BondsUpTo(t, m, P)| ==> BondsUpTo(t, m, P)[k].id == k + 1
    ensures forall k :: 0 <= k < |BondsUpTo(t, m, P)| ==> GoodBond(t, m, P, BondsUpTo(t, m, P)[k])
    ensures forall x :: 1 <= x <= P && t[x] == 3 ==> Touches(BondsUpTo(t, m, P), x) == 1
  {
    BondsNumbered(t, m, P, P);
    BondsInChain(t, m, P, P);
    forall x | 1 <= x <= P && t[x] == 3
      ensures Touches(BondsUpTo(t, m, P), x) == 1
    {
      PendantOnce(t, m, P, x);
    }
  }

  /** On the built topology the bond loop writes exactly nbonds bonds, one per atom that is not last in its chain. */
  lemma LayoutBondCount(p: Params)
    requires p.nbeads >= 2 && ChainLen(p) >= 1
    requires ComputeCounts(p).ncounterions + ComputeCounts(p).ncoion >= 1
    ensures WellFormed(TypesOf(Layout(p)), MolsOf(Layout(p)), PolymerBeads(p))
    ensures SameCount(MolsOf(Layout(p)), PolymerBeads(p)) == ComputeCounts(p).nbonds
  {
    var m, L := MolsOf(Layout(p)), ChainLen(p);
    LayoutWellFormed(p);
    LayoutChainIds(p);
    ChainsCount(m, p.npoly, L, p.npoly);
    IonAfterChains(p);
    MulPred(p.npoly, L);
  }

  lemma MulPred(a: nat, L: nat)
    requires L >= 1
    ensures a * (L - 1) == a * L - a
  {
  }

  // ---------------------------------------------------------------------------
  // Atom records and the whole script
  // ---------------------------------------------------------------------------

  /** Polymer atoms have types 1..3 and a chain id in 1..npoly; ions have type 4 or 5. */
  lemma LayoutKinds(p: Params)
    requires p.nbeads >= 2
    ensures var t, m, P := TypesOf(Layout(p)), MolsOf(Layout(p)), PolymerBeads(p);
      && |t| == |m| == ComputeCounts(p).ntot + 1 && P <= ComputeCounts(p).ntot
      && (forall i :: 1 <= i <= P ==> 1 <= t[i] <= 3 && 1 <= m[i] <= p.npoly)
      && (forall i :: P < i < |t| ==> t[i] == 4 || t[i] == 5)
  {
    PolymerLength(p);
    ChainsPaired(p, p.npoly);
    ChainsMolRange(p, p.npoly);
    var c := ComputeCounts(p);
    var ions := Const(Bead(4, p.zc, 0), c.ncounterions) + Const(Bead(5, c.chargeCoion, 0), c.ncoion);
    assert Layout(p) == Chains(p, p.npoly) + ions;
    forall k | 0 <= k < |ions|
      ensures ions[k].btype == 4 || ions[k].btype == 5
    {
      if k < c.ncounterions {
        assert ions[k] == Bead(4, p.zc, 0);
      } else {
        assert ions[k] == Bead(5, c.chargeCoion, 0);
      }
    }
    PrefixKinds(Chains(p, p.npoly), ions, p.npoly);
  }

  /** Polymer beads followed by ions: the views separate the two kinds at the boundary. */
  lemma PrefixKinds(chains: seq<Bead>, ions: seq<Bead>, npoly: nat)
    requires forall k :: 0 <= k < |chains| ==> 1 <= chains[k].btype <= 3 && 1 <= chains[k].mol <= npoly
    requires forall k :: 0 <= k < |ions| ==> ions[k].btype == 4 || ions[k].btype == 5
    ensures var t, m := TypesOf(chains + ions), MolsOf(chains + ions);
      && (forall i :: 1 <= i <= |chains| ==> 1 <= t[i] <= 3 && 1 <= m[i] <= npoly)
      && (forall i :: |chains| < i < |t| ==> t[i] == 4 || t[i] == 5)
  {
    var L := chains + ions;
    var t, m := TypesOf(L), MolsOf(L);
    forall i | 1 <= i <= |chains|
      ensures 1 <= t[i] <= 3 && 1 <= m[i] <= npoly
    {
      assert L[i - 1] == chains[i - 1];
    }
    forall i | |chains| < i < |t|
      ensures t[i] == 4 || t[i] == 5
    {
      assert L[i - 1] == ions[i - 1 - |chains|];
    }
  }

  /** LayoutKinds read off the filled arrays, with the polymer count in terms of the ion counts. */
  lemma AtomKinds(p: Params, typeb: array<int>, molnum: array<int>)
    requires p.nbeads >= 2
    requires typeb.Length == molnum.Length == ComputeCounts(p).ntot + 1
    requires typeb[..] == TypesOf(Layout(p)) && molnum[..] == MolsOf(Layout(p))
    ensures PolymerBeads(p) == ComputeCounts(p).ntot - ComputeCounts(p).ncounterions - ComputeCounts(p).ncoion
    ensures ComputeCounts(p).ncounterions + ComputeCounts(p).ncoion <= ComputeCounts(p).ntot
    ensures forall i :: 1 <= i <= PolymerBeads(p) ==> 1 <= typeb[i] <= 3 && 1 <= molnum[i] <= p.npoly
    ensures forall i :: PolymerBeads(p) < i < typeb.Length ==> typeb[i] == 4 || typeb[i] == 5
  {
    LayoutKinds(p);
    PolymerLength(p);
    forall i | 1 <= i <= PolymerBeads(p)
      ensures 1 <= typeb[i] <= 3 && 1 <= molnum[i] <= p.npoly
    {
      assert typeb[i] == typeb[..][i] && molnum[i] == molnum[..][i];
    }
    forall i | PolymerBeads(p) < i < typeb.Length
      ensures typeb[i] == 4 || typeb[i] == 5
    {
      assert typeb[i] == typeb[..][i];
    }
  }

  /**
   * The molecule id column of the Atoms section. Polymer beads keep their chain's molnum;
   * each ion gets its own id npoly+1, npoly+2, ... in atom order.
   */
  method AtomMolecules(npoly: int, c: Counts, typeb: array<int>, molnum: array<int>) returns (imol: seq<int>)
    requires typeb.Length == molnum.Length == c.ntot + 1
    requires c.ncounterions + c.ncoion <= c.ntot
    requires forall i :: 1 <= i <= c.ntot - c.ncounterions - c.ncoion ==> 1 <= typeb[i] <= 3 && 1 <= molnum[i] <= npoly
    requires forall i :: c.ntot - c.ncounterions - c.ncoion < i < typeb.Length ==> typeb[i] == 4 || typeb[i] == 5
    ensures |imol| == c.ntot
    ensures forall k :: 0 <= k < c.ntot - c.ncounterions - c.ncoion ==> imol[k] == molnum[k + 1] && 1 <= imol[k] <= npoly
    ensures forall k :: c.ntot - c.ncounterions - c.ncoion <= k < |imol| ==>
      imol[k] == npoly + 1 + (k - (c.ntot - c.ncounterions - c.ncoion))
    ensures forall k :: c.ntot - c.ncounterions - c.ncoion <= k < |imol| ==>
      npoly < imol[k] <= npoly + c.ncounterions + c.ncoion
  {
    ghost var P := c.ntot - c.ncounterions - c.ncoion;
    imol := [];
    for i := 1 to typeb.Length
      invariant |imol| == i - 1
      invariant forall k :: 0 <= k < i - 1 && k < P ==> imol[k] == molnum[k + 1]
      invariant forall k :: P <= k < i - 1 ==> imol[k] == npoly + 1 + (k - P)
    {
      var itype := typeb[i];
      var id;
      if itype != 4 && itype != 5 && itype != 6 {
        id := molnum[i];
      } else {
        id := i - c.ntot + c.ncounterions + npoly + c.ncoion;
      }
      imol := imol + [id];
    }
  }

  /**
   * The script stops before any ion is placed or any record is written: with no atoms at all
   * the density report divides by a zero volume; with chains of no monomers and no leading
   * bead the Rg step reads `k1` unset; with no ions the end-to-end distance of the last chain
   * reads `xc[ntot+1]`, past the end; and with no chains the averages divide by npoly = 0.
   */
  predicate Aborts(p: Params)
  {
    || ComputeCounts(p).ntot == 0
    || p.npoly == 0
    || (p.nmonomersPerPoly == 0 && p.nbeads != 3)
    || ComputeCounts(p).ncounterions + ComputeCounts(p).ncoion == 0
  }

  /** Chains that are not empty give polymer atoms. */
  lemma PolymerBeadsPositive(p: Params)
    requires p.nbeads >= 2 && p.npoly >= 1 && !(p.nmonomersPerPoly == 0 && p.nbeads != 3)
    ensures PolymerBeads(p) >= 1
  {
    if p.nbeads != 3 {
      MulMono(1, p.nmonomersPerPoly * p.npoly, p.nbeads);
      MulMono(1, p.nmonomersPerPoly, p.npoly);
    }
  }

  /**
   * A run past the polymer section: the ion loops, the molecule id of every atom record, and
   * the bond loop, which finds an ion after the chains and succeeds.
   */
  method WriteRecords(p: Params, typeb: array<int>, q: array<int>, molnum: array<int>)
    returns (imol: seq<int>, bonds: Result<seq<Bond>, ScriptError>)
    requires p.nbeads >= 2 && !Aborts(p)
    requires typeb != q && q != molnum && typeb != molnum
    requires typeb.Length == q.Length == molnum.Length == ComputeCounts(p).ntot + 1
    requires Placed(typeb, q, molnum, Chains(p, p.npoly), 1)
    requires Blank(typeb, q, molnum, PolymerBeads(p))
    modifies typeb, q
    ensures Placed(typeb, q, molnum, Layout(p), 1)
    ensures typeb[..] == TypesOf(Layout(p)) && molnum[..] == MolsOf(Layout(p)) && Sum(q[..]) == 0
    ensures |imol| == ComputeCounts(p).ntot
    ensures forall k :: 0 <= k < PolymerBeads(p) ==> imol[k] == molnum[k + 1]
    ensures forall k :: PolymerBeads(p) <= k < |imol| ==> imol[k] == p.npoly + 1 + (k - PolymerBeads(p))
    ensures bonds.Success? && bonds.value == BondsUpTo(typeb[..], molnum[..], PolymerBeads(p))
  {
    var c := ComputeCounts(p);
    AddIons(p, typeb, q, molnum);
    PolymerLength(p);
    PlacedViews(typeb, q, molnum, Layout(p));
    PolymerBeadsPositive(p);
    AtomKinds(p, typeb, molnum);
    imol := AtomMolecules(p.npoly, c, typeb, molnum);
    var nPolymer := c.ntot - c.ncounterions - c.ncoion;
    assert nPolymer == PolymerBeads(p);
    bonds := WriteBonds(typeb, molnum, nPolymer);
  }

  /**
   * The script in order: the density report stops a run with no atoms before any array is
   * allocated; the polymer section writes the chains into typeb/q/molnum and stops there when
   * it aborts, leaving the ion slots zero; otherwise the ion loops fill the rest, and the atom
   * records and the bonds are written. The bond loop then always succeeds, since an ion
   * follows the chains.
   */
  method Generate(p: Params) returns (typeb: array<int>, q: array<int>, molnum: array<int>,
                                      imol: seq<int>, bonds: Result<seq<Bond>, ScriptError>)
    requires p.nbeads >= 2
    ensures typeb.Length == q.Length == molnum.Length == ComputeCounts(p).ntot + 1
    ensures Aborts(p) ==> Placed(typeb, q, molnum, Chains(p, p.npoly), 1) && Blank(typeb, q, molnum, PolymerBeads(p))
    ensures !Aborts(p) ==> Placed(typeb, q, molnum, Layout(p), 1)
    ensures !Aborts(p) ==> typeb[..] == TypesOf(Layout(p)) && molnum[..] == MolsOf(Layout(p)) && Sum(q[..]) == 0
    ensures bonds == Failure(EmptyBox) <==> ComputeCounts(p).ntot == 0
    ensures bonds == Failure(FirstBeadUnset) <==>
      ComputeCounts(p).ntot >= 1 && p.npoly >= 1 && p.nmonomersPerPoly == 0 && p.nbeads != 3
    ensures bonds == Failure(EndToEndOutOfRange(ComputeCounts(p).ntot + 1)) <==>
      p.npoly >= 1 && !(p.nmonomersPerPoly == 0 && p.nbeads != 3) &&
      ComputeCounts(p).ncounterions + ComputeCounts(p).ncoion == 0
    ensures bonds == Failure(NoChains) <==> ComputeCounts(p).ntot >= 1 && p.npoly == 0
    ensures bonds.Success? <==> !Aborts(p)
    ensures Aborts(p) ==> imol == []
    ensures !Aborts(p) ==> |imol| == ComputeCounts(p).ntot
    ensures !Aborts(p) ==> forall k :: 0 <= k < PolymerBeads(p) ==> imol[k] == molnum[k + 1]
    ensures !Aborts(p) ==> forall k :: PolymerBeads(p) <= k < |imol| ==> imol[k] == p.npoly + 1 + (k - PolymerBeads(p))
    ensures bonds.Success? ==> bonds.value == BondsUpTo(typeb[..], molnum[..], PolymerBeads(p))
  {
    var c := ComputeCounts(p);
    PolymerLength(p);
    if p.npoly >= 1 && !(p.nmonomersPerPoly == 0 && p.nbeads != 3) {
      PolymerBeadsPositive(p);
    }
    if c.ntot == 0 {
      typeb := new int[1](_ => 0);
      q := new int[1](_ => 0);
      molnum := new int[1](_ => 0);
      return typeb, q, molnum, [], Failure(EmptyBox);
    }
    typeb, q, molnum := BuildPolymer(p);
    if p.npoly >= 1 && p.nmonomersPerPoly == 0 && p.nbeads != 3 {
      return typeb, q, molnum, [], Failure(FirstBeadUnset);
    }
    if p.npoly >= 1 && c.ncounterions + c.ncoion == 0 {
      return typeb, q, molnum, [], Failure(EndToEndOutOfRange(c.ntot + 1));
    }
    if p.npoly == 0 {
      return typeb, q, molnum, [], Failure(NoChains);
    }
    imol, bonds := WriteRecords(p, typeb, q, molnum);
  }
}
