/**
 * The state of the compiler's ownership flow analysis (OwnershipFlowManager):
 * for every basic block of the function and every symbol of interest, seven
 * flow relations (PROD, CONS, USE, USED_LATER, EXIT, IN, OUT), stored one
 * bit per (block, symbol).  The relations are defined by what the blocks'
 * instructions do with each symbol and by the control-flow successors.
 */
module OwnershipFlow {

  /** The seven flow sets, in the order of their flag bits. */
  datatype FlowKind = Prod | Cons | Use | UsedLater | Exit | In | Out

  function Position(k: FlowKind): (p: nat)
    ensures p < 7
  {
    match k
    case Prod => 0
    case Cons => 1
    case Use => 2
    case UsedLater => 3
    case Exit => 4
    case In => 5
    case Out => 6
  }

  /** FlowSetFlags: flow set k is selected by the single bit 1 << Position(k). */
  function FlagBit(k: FlowKind): (b: bv8)
    ensures b != 0 && b & (b - 1) == 0
    ensures b & FlowSetAll == b
  {
    1 << Position(k)
  }

  /** FlowSet_ALL selects every flow set. */
  const FlowSetAll: bv8 := 0xff

  /** Two different flow sets never share a flag bit. */
  lemma FlagsDistinct(k1: FlowKind, k2: FlowKind)
    requires k1 != k2
    ensures FlagBit(k1) & FlagBit(k2) == 0
  {
  }

  /** A symbol of the function under analysis, by identity. */
  type Symbol = int

  /** What an instruction does with a symbol it mentions; an addr_of counts as a read. */
  datatype RefKind = Def | Read | AddrOf | Consume

  datatype Ref = Ref(sym: Symbol, kind: RefKind)

  /** An instruction is the list of its symbol references, a block the list of its instructions. */
  type Insn = seq<Ref>
  type Block = seq<Insn>

  /** The references of a block in execution order. */
  function Refs(b: Block): seq<Ref>
  {
    if b == [] then [] else Refs(b[..|b| - 1]) + b[|b| - 1]
  }

  /** The kinds of reference each per-block relation records. */
  const ProdKinds: set<RefKind> := {Def}
  const UseKinds: set<RefKind> := {Read, AddrOf, Consume}
  const ConsKinds: set<RefKind> := {Consume}

  /** Some reference of rs names symbol s with one of the kinds ks. */
  predicate Mentions(rs: seq<Ref>, s: Symbol, ks: set<RefKind>)
  {
    exists q :: 0 <= q < |rs| && rs[q].sym == s && rs[q].kind in ks
  }

  /** symbolIndex is the inverse of symbols: the position of each tracked symbol, no symbol tracked twice. */
  ghost predicate Indexed(symbols: seq<Symbol>, index: map<Symbol, nat>)
  {
    (forall s :: s in index <==> s in symbols)
    && (forall s :: s in index ==> index[s] < |symbols| && symbols[index[s]] == s)
  }

  /** Successor lists that only name blocks 0 .. nbbs-1. */
  predicate Cfg(succ: seq<seq<int>>, nbbs: nat)
  {
    |succ| == nbbs && forall i, k :: 0 <= i < nbbs && 0 <= k < |succ[i]| ==> 0 <= succ[i][k] < nbbs
  }

  /** p is a non-empty path of blocks that starts at a successor of block i. */
  predicate IsPath(succ: seq<seq<int>>, i: int, p: seq<int>)
  {
    0 <= i < |succ| && |p| >= 1 && p[0] in succ[i]
    && (forall k :: 0 <= k < |p| ==> 0 <= p[k] < |succ|)
    && forall k :: 0 <= k < |p| - 1 ==> p[k + 1] in succ[p[k]]
  }

  /** The symbols in order of first appearance, each once. */
  function Dedup(syms: seq<Symbol>): (r: seq<Symbol>)
  {
    if syms == [] then []
    else
      var r0 := Dedup(syms[..|syms| - 1]);
      if syms[|syms| - 1] in r0 then r0 else r0 + [syms[|syms| - 1]]
  }

  /** Dedup keeps every symbol, adds none, and lists none twice. */
  lemma {:induction false} DedupFacts(syms: seq<Symbol>)
    ensures forall s :: s in Dedup(syms) <==> s in syms
    ensures forall p, q :: 0 <= p < q < |Dedup(syms)| ==> Dedup(syms)[p] != Dedup(syms)[q]
    decreases |syms|
  {
    if syms != [] {
      DedupFacts(syms[..|syms| - 1]);
      assert syms == syms[..|syms| - 1] + [syms[|syms| - 1]];
    }
  }

  /** A tracked symbol's bit is the one symbolIndex gives; an untracked symbol has none. */
  lemma IndexedHit(symbols: seq<Symbol>, index: map<Symbol, nat>, x: Symbol, j: int)
    requires Indexed(symbols, index) && 0 <= j < |symbols|
    requires forall p, q :: 0 <= p < q < |symbols| ==> symbols[p] != symbols[q]
    ensures x == symbols[j] <==> x in index && index[x] == j
  {
    if x == symbols[j] {
      assert symbols[index[x]] == symbols[j];
    }
  }

  /** One more reference: rs[..q+1] mentions s exactly when rs[..q] does or rs[q] does. */
  lemma MentionsSnoc(rs: seq<Ref>, q: nat, s: Symbol, ks: set<RefKind>)
    requires q < |rs|
    ensures Mentions(rs[..q + 1], s, ks) <==> Mentions(rs[..q], s, ks) || (rs[q].sym == s && rs[q].kind in ks)
  {
    if Mentions(rs[..q + 1], s, ks) && !(rs[q].sym == s && rs[q].kind in ks) {
      var p :| 0 <= p < q + 1 && rs[..q + 1][p].sym == s && rs[..q + 1][p].kind in ks;
      assert rs[..q][p] == rs[p];
    }
    if Mentions(rs[..q], s, ks) {
      var p :| 0 <= p < q && rs[..q][p].sym == s && rs[..q][p].kind in ks;
      assert rs[..q + 1][p] == rs[p];
    }
    if rs[q].sym == s && rs[q].kind in ks {
      assert rs[..q + 1][q] == rs[q];
    }
  }

  /** Bit [i, j] of a flow set, false outside its bounds. */
  ghost predicate Bit(a: array2<bool>, i: int, j: int)
    reads a
  {
    0 <= i < a.Length0 && 0 <= j < a.Length1 && a[i, j]
  }

  /** A path from a successor of s, entered from block i, is a path from i. */
  lemma PathCons(succ: seq<seq<int>>, i: int, p: seq<int>)
    requires |p| >= 2 && 0 <= i < |succ| && IsPath(succ, p[0], p[1..]) && p[0] in succ[i]
    ensures IsPath(succ, i, p)
  {
    assert forall k :: 0 <= k < |p| - 1 ==> p[k + 1] == p[1..][k];
  }

  lemma {:induction false} SubsetCard(a: set<(int, int)>, b: set<(int, int)>)
    requires a <= b
    ensures |a| <= |b|
    decreases |a|
  {
    if a != {} {
      var x :| x in a;
      SubsetCard(a - {x}, b - {x});
    }
  }

  /** A set of bit positions that strictly grows has more elements. */
  lemma ProperSubsetCard(a: set<(int, int)>, b: set<(int, int)>)
    requires a < b
    ensures |a| < |b|
  {
    var x :| x in b && x !in a;
    SubsetCard(a, b - {x});
  }

  /** What happens at one reference: nothing, an autocopy before a consumption, or a transfer of ownership. */
  datatype Action = NoAction | AutoCopy | Transfer

  /** Symbol s is read (used or consumed) by some reference of rs after position p. */
  predicate ReadAfter(rs: seq<Ref>, p: int, s: Symbol)
  {
    exists t :: 0 <= t && p < t < |rs| && rs[t].sym == s && rs[t].kind in UseKinds
  }

  /** The consumption at p is the symbol's last use: not read later in the block nor in the flow after it. */
  predicate LastUse(rs: seq<Ref>, p: int, later: set<Symbol>)
    requires 0 <= p < |rs|
  {
    rs[p].sym !in later && !ReadAfter(rs, p, rs[p].sym)
  }

  /**
   * The symbols owned before reference p, from those owned on entry: a
   * definition produces ownership, a consumption without autocopy gives it
   * away.
   */
  function OwnedAt(rs: seq<Ref>, owned: set<Symbol>, later: set<Symbol>, p: int): set<Symbol>
    requires 0 <= p <= |rs|
    decreases p
  {
    if p == 0 then owned
    else
      var o := OwnedAt(rs, owned, later, p - 1);
      var r := rs[p - 1];
      if r.kind == Def then o + {r.sym}
      else if r.kind == Consume && r.sym in o && LastUse(rs, p - 1, later) then o - {r.sym}
      else o
  }

  /**
   * The action at reference p: a consumption of an owned symbol at its last
   * use takes the ownership over; any other consumption needs an autocopy.
   */
  function Decision(rs: seq<Ref>, owned: set<Symbol>, later: set<Symbol>, p: int): Action
    requires 0 <= p < |rs|
  {
    if rs[p].kind != Consume then NoAction
    else if rs[p].sym in OwnedAt(rs, owned, later, p) && LastUse(rs, p, later) then Transfer
    else AutoCopy
  }

  /** The number of autocopies in a plan. */
  function CopyCount(plan: seq<Action>): (c: nat)
    ensures c <= |plan|
  {
    if plan == [] then 0 else CopyCount(plan[..|plan| - 1]) + (if plan[|plan| - 1] == AutoCopy then 1 else 0)
  }

  /** A transfer happens only at an owned symbol's last use. */
  lemma TransferIsLastUse(rs: seq<Ref>, owned: set<Symbol>, later: set<Symbol>, p: int)
    requires 0 <= p < |rs| && Decision(rs, owned, later, p) == Transfer
    ensures rs[p].kind == Consume && rs[p].sym !in later && forall t :: p < t < |rs| ==> !(rs[t].sym == rs[p].sym && rs[t].kind in UseKinds)
  {
  }

  /** Ownership of a symbol is transferred at most once in a block. */
  lemma OneTransferPerSymbol(rs: seq<Ref>, owned: set<Symbol>, later: set<Symbol>, p1: int, p2: int)
    requires 0 <= p1 < p2 < |rs|
    requires Decision(rs, owned, later, p1) == Transfer && Decision(rs, owned, later, p2) == Transfer
    ensures rs[p1].sym != rs[p2].sym
  {
    assert rs[p2].kind in UseKinds;
  }

  /** A symbol neither owned on entry nor defined before p is not owned at p. */
  lemma {:induction false} NotOwnedYet(rs: seq<Ref>, owned: set<Symbol>, later: set<Symbol>, p: int, s: Symbol)
    requires 0 <= p <= |rs| && s !in owned
    requires forall t :: 0 <= t < p ==> !(rs[t].sym == s && rs[t].kind == Def)
    ensures s !in OwnedAt(rs, owned, later, p)
    decreases p
  {
    if p > 0 {
      NotOwnedYet(rs, owned, later, p - 1, s);
    }
  }

  /** A consumption of a symbol that is not owned there gets an autocopy. */
  lemma UnownedIsCopied(rs: seq<Ref>, owned: set<Symbol>, later: set<Symbol>, p: int)
    requires 0 <= p < |rs| && rs[p].kind == Consume && rs[p].sym !in owned
    requires forall t :: 0 <= t < p ==> !(rs[t].sym == rs[p].sym && rs[t].kind == Def)
    ensures Decision(rs, owned, later, p) == AutoCopy
  {
    NotOwnedYet(rs, owned, later, p, rs[p].sym);
  }

  /** An owned symbol that no reference before p touches is still owned at p. */
  lemma {:induction false} StillOwned(rs: seq<Ref>, owned: set<Symbol>, later: set<Symbol>, p: int, s: Symbol)
    requires 0 <= p <= |rs| && s in owned
    requires forall t :: 0 <= t < p ==> rs[t].sym != s
    ensures s in OwnedAt(rs, owned, later, p)
    decreases p
  {
    if p > 0 {
      StillOwned(rs, owned, later, p - 1, s);
    }
  }

  /**
   * A symbol owned on entry, consumed twice and referred to nowhere else in
   * the block or later in the flow, gets an autocopy at the first
   * consumption and gives its ownership away at the second.
   */
  lemma ConsumedTwice(rs: seq<Ref>, owned: set<Symbol>, later: set<Symbol>, p1: int, p2: int)
    requires 0 <= p1 < p2 < |rs| && rs[p1].kind == Consume && rs[p2] == rs[p1]
    requires rs[p1].sym in owned && rs[p1].sym !in later
    requires forall t :: 0 <= t < |rs| && t != p1 && t != p2 ==> rs[t].sym != rs[p1].sym
    ensures Decision(rs, owned, later, p1) == AutoCopy && Decision(rs, owned, later, p2) == Transfer
  {
    var s := rs[p1].sym;
    assert ReadAfter(rs, p1, s);
    StillOwned(rs, owned, later, p1, s);
    assert OwnedAt(rs, owned, later, p1 + 1) == OwnedAt(rs, owned, later, p1);
    StillOwnedFrom(rs, owned, later, p1 + 1, p2, s);
  }

  /** A symbol owned at q and untouched from q to p is still owned at p. */
  lemma {:induction false} StillOwnedFrom(rs: seq<Ref>, owned: set<Symbol>, later: set<Symbol>, q: int, p: int, s: Symbol)
    requires 0 <= q <= p <= |rs| && s in OwnedAt(rs, owned, later, q)
    requires forall t :: q <= t < p ==> rs[t].sym != s
    ensures s in OwnedAt(rs, owned, later, p)
    decreases p - q
  {
    if p > q {
      StillOwnedFrom(rs, owned, later, q, p - 1, s);
    }
  }

  class OwnershipFlowManager {
    /** The function's basic blocks and, for each, the blocks control can pass to next. */
    var blocks: seq<Block>
    var succ: seq<seq<int>>
    var nbbs: nat
    /** fnRetSym: the function's return symbol, the one symbol allowed several producers. */
    var retSym: Symbol
    var symbols: seq<Symbol>
    var nsyms: nat
    var symbolIndex: map<Symbol, nat>
    /** The flow sets: bit [i, j] is the relation for block i and symbols[j]. */
    var PROD: array2<bool>
    var CONS: array2<bool>
    var USE: array2<bool>
    var USED_LATER: array2<bool>
    var EXIT: array2<bool>
    var IN: array2<bool>
    var OUT: array2<bool>

    /** The cached counts agree with the blocks and symbols, and symbolIndex inverts symbols. */
    ghost predicate Valid()
      reads this
    {
      Cfg(succ, nbbs) && |blocks| == nbbs && nsyms == |symbols| && Indexed(symbols, symbolIndex)
      && forall p, q :: 0 <= p < q < |symbols| ==> symbols[p] != symbols[q]
    }

    /** A flow set holds one vector per block and one bit per symbol. */
    ghost predicate Sized(a: array2<bool>)
      reads this`nbbs, this`nsyms
    {
      a.Length0 == nbbs && a.Length1 == nsyms
    }

    /** Every bit of the flow set is clear. */
    ghost predicate Clear(a: array2<bool>)
      reads this`nbbs, this`nsyms, a
    {
      Sized(a) && forall i, j :: 0 <= i < nbbs && 0 <= j < nsyms ==> !a[i, j]
    }

    /** Bit [i, j] is set exactly when block i refers to symbols[j] in one of the kinds ks. */
    ghost predicate Records(a: array2<bool>, ks: set<RefKind>)
      reads this, a
    {
      Valid() && Sized(a)
      && forall i, j :: 0 <= i < nbbs && 0 <= j < nsyms ==> a[i, j] == Mentions(Refs(blocks[i]), symbols[j], ks)
    }

    /** The analysis of a function whose control-flow graph is given; no symbol is tracked yet. */
    constructor (blocks: seq<Block>, succ: seq<seq<int>>, retSym: Symbol)
      requires Cfg(succ, |blocks|)
      ensures this.blocks == blocks && this.succ == succ && this.retSym == retSym && nbbs == |blocks|
      ensures symbols == [] && symbolIndex == map[] && Valid()
    {
      this.blocks := blocks;
      this.succ := succ;
      this.retSym := retSym;
      nbbs := |blocks|;
      symbols := [];
      nsyms := 0;
      symbolIndex := map[];
      PROD := new bool[0, 0];
      CONS := new bool[0, 0];
      USE := new bool[0, 0];
      USED_LATER := new bool[0, 0];
      EXIT := new bool[0, 0];
      IN := new bool[0, 0];
      OUT := new bool[0, 0];
    }

    /**
     * extractSymbols: the symbols of interest, found in order, are tracked
     * once each; symbolIndex gives each its position.
     */
    method ExtractSymbols(syms: seq<Symbol>)
      requires Valid()
      modifies this`symbols, this`nsyms, this`symbolIndex
      ensures Valid() && symbols == Dedup(syms)
      ensures forall s :: s in symbolIndex <==> s in syms
    {
      symbols := [];
      symbolIndex := map[];
      var k := 0;
      while k < |syms|
        invariant 0 <= k <= |syms| && symbols == Dedup(syms[..k]) && Indexed(symbols, symbolIndex)
      {
        assert syms[..k + 1][..k] == syms[..k];
        var s := syms[k];
        if s !in symbolIndex {
          symbolIndex := symbolIndex[s := |symbols|];
          symbols := symbols + [s];
        }
        k := k + 1;
      }
      assert syms[..k] == syms;
      DedupFacts(syms);
      nsyms := |symbols|;
    }

    /** createFlowSets: every flow set is a fresh vector of nsyms clear bits per block. */
    method CreateFlowSets()
      requires Valid()
      modifies this`PROD, this`CONS, this`USE, this`USED_LATER, this`EXIT, this`IN, this`OUT
      ensures fresh(PROD) && fresh(CONS) && fresh(USE) && fresh(USED_LATER) && fresh(EXIT) && fresh(IN) && fresh(OUT)
      ensures Clear(PROD) && Clear(CONS) && Clear(USE) && Clear(USED_LATER) && Clear(EXIT) && Clear(IN) && Clear(OUT)
    {
      CreateBlockSets();
      CreateSolveSets();
    }

    /** The per-block flow sets of createFlowSets: PROD, CONS, USE and USED_LATER. */
    method CreateBlockSets()
      modifies this`PROD, this`CONS, this`USE, this`USED_LATER
      ensures fresh(PROD) && fresh(CONS) && fresh(USE) && fresh(USED_LATER)
      ensures Clear(PROD) && Clear(CONS) && Clear(USE) && Clear(USED_LATER)
    {
      PROD := NewClear(nbbs, nsyms);
      CONS := NewClear(nbbs, nsyms);
      USE := NewClear(nbbs, nsyms);
      USED_LATER := NewClear(nbbs, nsyms);
    }

    /** The flow sets of createFlowSets that the solver fills: EXIT, IN and OUT. */
    method CreateSolveSets()
      modifies this`EXIT, this`IN, this`OUT
      ensures fresh(EXIT) && fresh(IN) && fresh(OUT)
      ensures Clear(EXIT) && Clear(IN) && Clear(OUT)
    {
      EXIT := NewClear(nbbs, nsyms);
      IN := NewClear(nbbs, nsyms);
      OUT := NewClear(nbbs, nsyms);
    }

    /** A fresh flow set of n vectors of m clear bits. */
    static method NewClear(n: nat, m: nat) returns (a: array2<bool>)
      ensures fresh(a) && a.Length0 == n && a.Length1 == m
      ensures forall i, j :: 0 <= i < n && 0 <= j < m ==> !a[i, j]
    {
      a := new bool[n, m]((i, j) => false);
    }

    /**
     * computeTransitions: PROD records the symbols each block defines, USE
     * the ones it reads (an addr_of or a consumption is a read), CONS the ones
     * it consumes at least once.
     */
    method ComputeTransitions()
      requires Valid() && Clear(PROD) && Clear(USE) && Clear(CONS)
      requires PROD != USE && USE != CONS && PROD != CONS
      modifies PROD, USE, CONS
      ensures Records(PROD, ProdKinds) && Records(USE, UseKinds) && Records(CONS, ConsKinds)
    {
      FillSet(PROD, ProdKinds);
      FillSet(USE, UseKinds);
      FillSet(CONS, ConsKinds);
    }

    /** One flow set filled block by block from the blocks' references of kinds ks. */
    method FillSet(a: array2<bool>, ks: set<RefKind>)
      requires Valid() && Clear(a)
      modifies a
      ensures Records(a, ks)
    {
      var b := 0;
      while b < nbbs
        invariant 0 <= b <= nbbs
        invariant forall i, j :: 0 <= i < nbbs && 0 <= j < nsyms ==>
                    a[i, j] == (i < b && Mentions(Refs(blocks[i]), symbols[j], ks))
      {
        MarkRow(a, b, ks);
        b := b + 1;
      }
    }

    /** Row b of the flow set gets a bit for every tracked symbol block b refers to in one of the kinds ks. */
    method MarkRow(a: array2<bool>, b: int, ks: set<RefKind>)
      requires Valid() && Sized(a) && 0 <= b < nbbs
      requires forall j :: 0 <= j < nsyms ==> !a[b, j]
      modifies a
      ensures forall i, j :: 0 <= i < nbbs && 0 <= j < nsyms ==>
                a[i, j] == if i == b then Mentions(Refs(blocks[b]), symbols[j], ks) else old(a[i, j])
    {
      var rs := Refs(blocks[b]);
      var q := 0;
      while q < |rs|
        invariant 0 <= q <= |rs|
        invariant forall i, j :: 0 <= i < nbbs && 0 <= j < nsyms ==>
                    a[i, j] == if i == b then Mentions(rs[..q], symbols[j], ks) else old(a[i, j])
      {
        var r := rs[q];
        forall j | 0 <= j < nsyms
          ensures Mentions(rs[..q + 1], symbols[j], ks)
                  <==> Mentions(rs[..q], symbols[j], ks) || (r.sym in symbolIndex && symbolIndex[r.sym] == j && r.kind in ks)
        {
          MentionsSnoc(rs, q, symbols[j], ks);
          IndexedHit(symbols, symbolIndex, r.sym, j);
        }
        if r.sym in symbolIndex && r.kind in ks {
          a[b, symbolIndex[r.sym]] := true;
        }
        q := q + 1;
      }
      assert rs[..q] == rs;
    }

    /** Some successor s of block i has src[s, j] or dst[s, j] set. */
    ghost predicate Later(src: array2<bool>, dst: array2<bool>, i: int, j: int)
      reads this, src, dst
    {
      0 <= i < |succ| && exists k :: 0 <= k < |succ[i]| && (Bit(src, succ[i][k], j) || Bit(dst, succ[i][k], j))
    }

    /** Some path leaving block i reaches a block with src[., j] set. */
    ghost predicate Reaches(src: array2<bool>, i: int, j: int)
      reads this, src
    {
      exists p :: IsPath(succ, i, p) && Bit(src, p[|p| - 1], j)
    }

    /** Every set bit of dst is backed by a path to a src bit. */
    ghost predicate Justified(src: array2<bool>, dst: array2<bool>)
      reads this, src, dst
    {
      forall i, j :: Bit(dst, i, j) ==> Reaches(src, i, j)
    }

    /** dst is closed under the recurrence: a bit the successors call for is set. */
    ghost predicate Closed(src: array2<bool>, dst: array2<bool>)
      reads this, src, dst
    {
      forall i, j :: 0 <= i < nbbs && 0 <= j < nsyms && Later(src, dst, i, j) ==> Bit(dst, i, j)
    }

    /**
     * dst solves the recurrence over src: bit [i, j] is set exactly when
     * some successor has the src or dst bit, and exactly when some path
     * from block i reaches a src bit.
     */
    ghost predicate Solved(src: array2<bool>, dst: array2<bool>)
      reads this, src, dst
    {
      Sized(dst)
      && (forall i, j :: 0 <= i < nbbs && 0 <= j < nsyms ==> (dst[i, j] <==> Later(src, dst, i, j)))
      && (forall i, j :: 0 <= i < nbbs && 0 <= j < nsyms ==> (dst[i, j] <==> Reaches(src, i, j)))
    }

    /** In a closed dst, a block from which a path reaches a src bit has its dst bit. */
    lemma {:induction false} ClosedReaches(src: array2<bool>, dst: array2<bool>, i: int, j: int, p: seq<int>)
      requires Valid() && Sized(src) && Sized(dst) && Closed(src, dst) && 0 <= j < nsyms
      requires IsPath(succ, i, p) && Bit(src, p[|p| - 1], j)
      ensures Bit(dst, i, j)
      decreases |p|
    {
      var k :| 0 <= k < |succ[i]| && succ[i][k] == p[0];
      if |p| == 1 {
        assert Later(src, dst, i, j);
      } else {
        assert IsPath(succ, p[0], p[1..]);
        ClosedReaches(src, dst, p[0], j, p[1..]);
        assert Later(src, dst, i, j);
      }
    }

    /** A closed, justified dst is the solution of the recurrence. */
    lemma ClosedSolved(src: array2<bool>, dst: array2<bool>)
      requires Valid() && Sized(src) && Sized(dst) && Closed(src, dst) && Justified(src, dst)
      ensures Solved(src, dst)
    {
      forall i, j | 0 <= i < nbbs && 0 <= j < nsyms
        ensures dst[i, j] <==> Reaches(src, i, j)
        ensures dst[i, j] ==> Later(src, dst, i, j)
      {
        if Reaches(src, i, j) {
          var p :| IsPath(succ, i, p) && Bit(src, p[|p| - 1], j);
          ClosedReaches(src, dst, i, j, p);
        }
        if dst[i, j] {
          var p :| IsPath(succ, i, p) && Bit(src, p[|p| - 1], j);
          var k :| 0 <= k < |succ[i]| && succ[i][k] == p[0];
          if |p| > 1 {
            assert IsPath(succ, p[0], p[1..]) && p[1..][|p| - 2] == p[|p| - 1];
            ClosedReaches(src, dst, p[0], j, p[1..]);
          }
          assert Later(src, dst, i, j);
        }
      }
    }

    /**
     * The backward flow of src into dst: sweeps over all blocks set every
     * bit that a successor's src or dst bit calls for, until a sweep sets
     * nothing.
     */
    method BackwardFlow(src: array2<bool>, dst: array2<bool>)
      requires Valid() && Sized(src) && Clear(dst) && src != dst
      modifies dst
      ensures Solved(src, dst)
    {
      ghost var grid := set i, j | 0 <= i < nbbs && 0 <= j < nsyms :: (i, j);
      ghost var ones: set<(int, int)> := {};
      var changed := true;
      while changed
        invariant Sized(dst) && Justified(src, dst)
        invariant forall i, j :: (i, j) in ones <==> Bit(dst, i, j)
        invariant ones <= grid
        invariant !changed ==> Closed(src, dst)
        decreases |grid| - |ones|, changed
      {
        ghost var before := ones;
        changed, ones := Sweep(src, dst, ones);
        forall x | x in ones
          ensures x in grid
        {
          assert Bit(dst, x.0, x.1);
        }
        SubsetCard(ones, grid);
        if changed {
          ProperSubsetCard(before, ones);
        }
      }
      ClosedSolved(src, dst);
    }

    /** One sweep over all blocks; it reports whether it set any bit. */
    method Sweep(src: array2<bool>, dst: array2<bool>, ghost ones: set<(int, int)>) returns (changed: bool, ghost ones': set<(int, int)>)
      requires Valid() && Sized(src) && Sized(dst) && src != dst && Justified(src, dst)
      requires forall i, j :: (i, j) in ones <==> Bit(dst, i, j)
      modifies dst
      ensures Justified(src, dst) && forall i, j :: (i, j) in ones' <==> Bit(dst, i, j)
      ensures changed ==> ones < ones'
      ensures !changed ==> ones' == ones && unchanged(dst) && Closed(src, dst)
    {
      changed := false;
      ones' := ones;
      var i := 0;
      while i < nbbs
        invariant 0 <= i <= nbbs
        invariant Justified(src, dst) && forall i', j :: (i', j) in ones' <==> Bit(dst, i', j)
        invariant ones <= ones' && (changed ==> ones < ones')
        invariant !changed ==> ones' == ones && unchanged(dst)
                               && forall i', j :: 0 <= i' < i && 0 <= j < nsyms && Later(src, dst, i', j) ==> dst[i', j]
      {
        var c;
        c, ones' := SweepRow(src, dst, i, ones');
        changed := changed || c;
        i := i + 1;
      }
    }

    /** One sweep over the bits of block i. */
    method SweepRow(src: array2<bool>, dst: array2<bool>, i: int, ghost ones: set<(int, int)>) returns (changed: bool, ghost ones': set<(int, int)>)
      requires Valid() && Sized(src) && Sized(dst) && src != dst && Justified(src, dst) && 0 <= i < nbbs
      requires forall i', j :: (i', j) in ones <==> Bit(dst, i', j)
      modifies dst
      ensures Justified(src, dst) && forall i', j :: (i', j) in ones' <==> Bit(dst, i', j)
      ensures ones <= ones' && (changed ==> ones < ones')
      ensures !changed ==> ones' == ones && unchanged(dst) && forall j :: 0 <= j < nsyms && Later(src, dst, i, j) ==> dst[i, j]
    {
      changed := false;
      ones' := ones;
      var j := 0;
      while j < nsyms
        invariant 0 <= j <= nsyms
        invariant Justified(src, dst) && forall i', j' :: (i', j') in ones' <==> Bit(dst, i', j')
        invariant ones <= ones' && (changed ==> ones < ones')
        invariant !changed ==> ones' == ones && unchanged(dst) && forall j' :: 0 <= j' < j && Later(src, dst, i, j') ==> dst[i, j']
      {
        var r := AnySucc(src, dst, i, j);
        if r && !dst[i, j] {
          JustifyBit(src, dst, i, j);
          ones' := SetBit(src, dst, i, j, ones');
          changed := true;
        }
        j := j + 1;
      }
    }

    /** Sets bit (i, j) of dst, which a path justifies; the set of ones grows by that bit. */
    method SetBit(src: array2<bool>, dst: array2<bool>, i: int, j: int, ghost ones: set<(int, int)>) returns (ghost ones': set<(int, int)>)
      requires Sized(src) && Sized(dst) && src != dst && Justified(src, dst)
      requires 0 <= i < nbbs && 0 <= j < nsyms && !dst[i, j] && Reaches(src, i, j)
      requires forall i', j' :: (i', j') in ones <==> Bit(dst, i', j')
      modifies dst
      ensures dst[i, j] && ones' == ones + {(i, j)}
      ensures Justified(src, dst) && forall i', j' :: (i', j') in ones' <==> Bit(dst, i', j')
      ensures ones < ones'
    {
      dst[i, j] := true;
      ones' := ones + {(i, j)};
      assert (i, j) !in ones;
    }

    /** A bit the recurrence calls for is backed by a path. */
    lemma JustifyBit(src: array2<bool>, dst: array2<bool>, i: int, j: int)
      requires Valid() && Sized(src) && Sized(dst) && Justified(src, dst) && Later(src, dst, i, j)
      ensures Reaches(src, i, j)
    {
      var k :| 0 <= k < |succ[i]| && (Bit(src, succ[i][k], j) || Bit(dst, succ[i][k], j));
      var s := succ[i][k];
      if Bit(src, s, j) {
        assert IsPath(succ, i, [s]);
      } else {
        var p :| IsPath(succ, s, p) && Bit(src, p[|p| - 1], j);
        PathCons(succ, i, [s] + p);
        assert ([s] + p)[|p|] == p[|p| - 1];
      }
    }

    /** Whether some successor of block i has the src or dst bit of symbols[j]. */
    method AnySucc(src: array2<bool>, dst: array2<bool>, i: int, j: int) returns (r: bool)
      requires Valid() && Sized(src) && Sized(dst) && 0 <= i < nbbs && 0 <= j < nsyms
      ensures r == Later(src, dst, i, j)
    {
      r := false;
      var k := 0;
      while k < |succ[i]|
        invariant 0 <= k <= |succ[i]|
        invariant r <==> exists k' :: 0 <= k' < k && (Bit(src, succ[i][k'], j) || Bit(dst, succ[i][k'], j))
      {
        var s := succ[i][k];
        if src[s, j] || dst[s, j] {
          r := true;
        }
        k := k + 1;
      }
    }

    /**
     * backwardFlowUse: USED_LATER(i, j) is set exactly when USE or
     * USED_LATER of symbols[j] is set in some successor of block i, the
     * smallest such solution: exactly when a path from block i reaches a
     * block that uses the symbol.
     */
    method BackwardFlowUse()
      requires Valid() && Sized(USE) && Clear(USED_LATER) && USE != USED_LATER
      modifies USED_LATER
      ensures Solved(USE, USED_LATER)
    {
      BackwardFlow(USE, USED_LATER);
    }

    /**
     * Some path leaving block i reaches another block that produces
     * symbols[j]: a second producer of the symbol on that path. A path that
     * only comes back to block i itself holds one producer.
     */
    ghost predicate ProducedElsewhere(i: int, j: int)
      reads this, PROD
    {
      exists p :: IsPath(succ, i, p) && p[|p| - 1] != i && Bit(PROD, p[|p| - 1], j)
    }

    /**
     * PROD's invariant: apart from the return symbol, no symbol produced in
     * a block is produced again in another block on a path leaving it.
     */
    ghost predicate SingleProducers()
      reads this, PROD
    {
      Valid() && Sized(PROD)
      && forall i, j :: 0 <= i < nbbs && 0 <= j < nsyms && symbols[j] != retSym && PROD[i, j] ==> !ProducedElsewhere(i, j)
    }

    /**
     * The check of PROD's invariant: a second producer on some path, for any
     * symbol but the return symbol, makes the check fail (an internal error
     * in the compiler).
     */
    method CheckSingleProducer() returns (ok: bool)
      requires Valid() && Sized(PROD)
      ensures ok <==> SingleProducers()
    {
      ok := true;
      var i := 0;
      while i < nbbs
        invariant 0 <= i <= nbbs
        invariant ok <==> forall i', j :: 0 <= i' < i && 0 <= j < nsyms && symbols[j] != retSym && PROD[i', j] ==> !ProducedElsewhere(i', j)
      {
        var rowOk := RowSingle(i);
        ok := ok && rowOk;
        i := i + 1;
      }
    }

    /**
     * No symbol but the return symbol is produced in block i and again in
     * another block later: the later-producer set is solved from PROD
     * without block i's own producers, and row i is scanned.
     */
    method RowSingle(i: int) returns (ok: bool)
      requires Valid() && Sized(PROD) && 0 <= i < nbbs
      ensures ok <==> forall j :: 0 <= j < nsyms && symbols[j] != retSym && PROD[i, j] ==> !ProducedElsewhere(i, j)
    {
      var others := OthersOf(i);
      var later := NewClear(nbbs, nsyms);
      BackwardFlow(others, later);
      ok := ScanRow(later, i);
      forall j | 0 <= j < nsyms
        ensures later[i, j] <==> ProducedElsewhere(i, j)
      {
        OthersReach(others, i, j);
      }
    }

    /** PROD with block i's producers cleared. */
    method OthersOf(i: int) returns (a: array2<bool>)
      requires Valid() && Sized(PROD) && 0 <= i < nbbs
      ensures fresh(a) && Sized(a)
      ensures forall k, j :: 0 <= k < nbbs && 0 <= j < nsyms ==> (a[k, j] <==> k != i && PROD[k, j])
    {
      var prod := PROD;
      a := new bool[nbbs, nsyms]((k, j) reads prod =>
        0 <= k < prod.Length0 && 0 <= j < prod.Length1 && k != i && prod[k, j]);
    }

    /** Reaching a producer of the set without block i's producers is reaching a producer elsewhere. */
    lemma OthersReach(others: array2<bool>, i: int, j: int)
      requires Valid() && Sized(PROD) && Sized(others) && 0 <= i < nbbs && 0 <= j < nsyms
      requires forall k, j' :: 0 <= k < nbbs && 0 <= j' < nsyms ==> (others[k, j'] <==> k != i && PROD[k, j'])
      ensures Reaches(others, i, j) <==> ProducedElsewhere(i, j)
    {
      if Reaches(others, i, j) {
        var p :| IsPath(succ, i, p) && Bit(others, p[|p| - 1], j);
        assert p[|p| - 1] != i && Bit(PROD, p[|p| - 1], j);
      }
      if ProducedElsewhere(i, j) {
        var p :| IsPath(succ, i, p) && p[|p| - 1] != i && Bit(PROD, p[|p| - 1], j);
        assert Bit(others, p[|p| - 1], j);
      }
    }

    /** True iff no symbol but the return symbol has both its PROD bit and its later bit set in block i. */
    method ScanRow(later: array2<bool>, i: int) returns (ok: bool)
      requires Valid() && Sized(PROD) && Sized(later) && 0 <= i < nbbs
      ensures ok <==> forall j :: 0 <= j < nsyms && symbols[j] != retSym && PROD[i, j] ==> !later[i, j]
    {
      ok := true;
      var j := 0;
      while j < nsyms
        invariant 0 <= j <= nsyms
        invariant ok <==> forall j' :: 0 <= j' < j && symbols[j'] != retSym && PROD[i, j'] ==> !later[i, j']
      {
        if symbols[j] != retSym && PROD[i, j] && later[i, j] {
          ok := false;
        }
        j := j + 1;
      }
    }

    /**
     * A block that is its own only successor, such as a loop body holding a
     * declaration, never has a second producer after it.
     */
    lemma SelfLoopSingle(i: int, j: int)
      requires Valid() && Sized(PROD) && 0 <= i < nbbs && succ[i] == [i]
      ensures !ProducedElsewhere(i, j)
    {
      forall p | IsPath(succ, i, p)
        ensures p[|p| - 1] == i
      {
        StaysAt(i, p, |p| - 1);
      }
    }

    /** Every block on a path from a block that is its own only successor is that block. */
    lemma {:induction false} StaysAt(i: int, p: seq<int>, k: int)
      requires Valid() && 0 <= i < nbbs && succ[i] == [i] && IsPath(succ, i, p) && 0 <= k < |p|
      ensures p[k] == i
      decreases k
    {
      if k > 0 {
        StaysAt(i, p, k - 1);
        assert p[k] in succ[p[k - 1]];
      }
    }

    /** The tracked symbols whose bit is set in row b of a flow set. */
    ghost function RowSymbols(a: array2<bool>, b: int): set<Symbol>
      reads this, a
      requires Valid() && Sized(a) && 0 <= b < nbbs
    {
      set s | s in symbolIndex && a[b, symbolIndex[s]]
    }

    /**
     * insertAutoCopies for block b: walking the block's references in order
     * from the symbols IN says are owned on entry, each consumption is
     * planned as a transfer when the symbol is owned and this is its last use
     * (USED_LATER clear, no later read in the block), and as an autocopy
     * otherwise; the autocopies are counted.
     */
    method InsertAutoCopies(b: int) returns (plan: seq<Action>, copies: nat)
      requires Valid() && Sized(IN) && Sized(USED_LATER) && 0 <= b < nbbs
      ensures var rs := Refs(blocks[b]);
              |plan| == |rs|
              && (forall p :: 0 <= p < |rs| ==> plan[p] == Decision(rs, RowSymbols(IN, b), RowSymbols(USED_LATER, b), p))
              && copies == CopyCount(plan)
    {
      var rs := Refs(blocks[b]);
      var owned := set s | s in symbolIndex && IN[b, symbolIndex[s]];
      var later := set s | s in symbolIndex && USED_LATER[b, symbolIndex[s]];
      ghost var owned0 := owned;
      plan := [];
      copies := 0;
      var p := 0;
      while p < |rs|
        invariant 0 <= p <= |rs| && |plan| == p
        invariant owned == OwnedAt(rs, owned0, later, p)
        invariant forall t :: 0 <= t < p ==> plan[t] == Decision(rs, owned0, later, t)
        invariant copies == CopyCount(plan)
      {
        var r := rs[p];
        var a := NoAction;
        if r.kind == Consume {
          var readLater := ReadsLater(rs, p, r.sym);
          if r.sym in owned && r.sym !in later && !readLater {
            a := Transfer;
            owned := owned - {r.sym};
          } else {
            a := AutoCopy;
            copies := copies + 1;
          }
        } else if r.kind == Def {
          owned := owned + {r.sym};
        }
        assert (plan + [a])[..p] == plan;
        plan := plan + [a];
        p := p + 1;
      }
    }

    /** Whether a reference after position p reads symbol s. */
    static method ReadsLater(rs: seq<Ref>, p: int, s: Symbol) returns (r: bool)
      requires 0 <= p < |rs|
      ensures r == ReadAfter(rs, p, s)
    {
      r := false;
      var t := p + 1;
      while t < |rs|
        invariant p + 1 <= t <= |rs|
        invariant r <==> exists t' :: p < t' < t && rs[t'].sym == s && rs[t'].kind in UseKinds
      {
        if rs[t].sym == s && rs[t].kind in UseKinds {
          r := true;
        }
        t := t + 1;
      }
    }
  }
}
