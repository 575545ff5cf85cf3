/**
  The mesher component's parameter validation: the inventory validators on the
  chunk and processor counts, the independent rules of `_validate`, each of which
  reports its own error without stopping the others, and the processor count
  `nproc`.

  Integers are Python ints; the source is Python 2, where `/` on ints is floor
  division. Every divisor here is 8, 16 or a processor count that the inventory
  validator keeps at 1 or more, and for a positive divisor Dafny's `/` and `%`
  agree with Python's floor division and modulo for dividends of either sign.
  Angles are real numbers of degrees; the rules only compare them with 90.
 */
module Mesher {
  import opened Arithmetic

  /** The inventory of the mesher that `_validate` and `nproc` read. */
  datatype Config = Config(
    nchunks: int,           // NCHUNKS
    angularWidthXi: real,   // angular-width-xi, in degrees
    angularWidthEta: real,  // angular-width-eta, in degrees
    nexXi: int,             // NEX_XI
    nexEta: int,            // NEX_ETA
    nprocXi: int,           // NPROC_XI
    nprocEta: int)          // NPROC_ETA

  const RightAngle: real := 90.0

  /** The inventory defaults: six chunks of 90 by 90 degrees, 64 elements, one processor. */
  const Default: Config := Config(6, RightAngle, RightAngle, 64, 64, 1, 1)

  /** The inventory items an error can point at. */
  datatype Param = Nchunks | AngularWidthXi | AngularWidthEta | NexXi | NexEta | NprocXi | NprocEta

  /** One tag per rule of `_validate`, in the order the rules are checked. */
  datatype Rule =
    | WidthXi               // angular-width-xi must be 90 degrees for more than one chunk
    | WidthEta              // angular-width-eta must be 90 degrees for more than two chunks
    | ProcTopology          // nproc-xi and nproc-eta must be equal for more than two chunks
    | NexXiBlock            // (nex-xi / 8) must be a multiple of nproc-xi
    | NexEtaBlock           // (nex-eta / 8) must be a multiple of nproc-eta
    | NexXiMultipleOf8      // nex-xi must be a multiple of 8
    | NexEtaMultipleOf8     // nex-eta must be a multiple of 8
    | NexXiMinimum          // nex-xi must not be below 48
    | NexEtaMinimum         // nex-eta must not be below 48
    | NexPerProcXiDoubling  // nex-xi / nproc-xi must be a multiple of 16
    | NexPerProcEtaDoubling // nex-eta / nproc-eta must be a multiple of 16
    | NexPerProcEqual       // same elements per processor in both directions for more than two chunks

  // ---------------------------------------------------------------------------
  // Inventory validators

  /** The validators declared with the inventory: NCHUNKS is one of 1, 2, 3, 6 and
      both processor counts are at least 1. */
  predicate InventoryValid(c: Config)
  {
    c.nchunks in {1, 2, 3, 6} && c.nprocXi >= 1 && c.nprocEta >= 1
  }

  /** The items whose inventory validator rejects the configured value, in declaration order. */
  function InventoryErrors(c: Config): (r: seq<Param>)
    ensures Nchunks in r <==> c.nchunks !in {1, 2, 3, 6}
    ensures NprocXi in r <==> c.nprocXi < 1
    ensures NprocEta in r <==> c.nprocEta < 1
    ensures forall p :: p in r ==> p in {Nchunks, NprocXi, NprocEta}
    ensures r == [] <==> InventoryValid(c)
  {
    (if c.nchunks in {1, 2, 3, 6} then [] else [Nchunks])
    + (if c.nprocXi >= 1 then [] else [NprocXi])
    + (if c.nprocEta >= 1 then [] else [NprocEta])
  }

  // ---------------------------------------------------------------------------
  // The rules of _validate

  /** Elements per processor along xi, NEX_XI / NPROC_XI (floor division). */
  function NexPerProcXi(c: Config): int
    requires c.nprocXi >= 1
  {
    c.nexXi / c.nprocXi
  }

  /** Elements per processor along eta, NEX_ETA / NPROC_ETA (floor division). */
  function NexPerProcEta(c: Config): int
    requires c.nprocEta >= 1
  {
    c.nexEta / c.nprocEta
  }

  /** Whether `rule` reports an error for `c`: the condition guarding that rule's `context.error`. */
  predicate Fails(c: Config, rule: Rule)
    requires c.nprocXi >= 1 && c.nprocEta >= 1
  {
    match rule
    case WidthXi => c.nchunks > 1 && c.angularWidthXi != RightAngle
    case WidthEta => c.nchunks > 2 && c.angularWidthEta != RightAngle
    case ProcTopology => c.nchunks > 2 && c.nprocXi != c.nprocEta
    case NexXiBlock => (c.nexXi / 8) % c.nprocXi != 0
    case NexEtaBlock => (c.nexEta / 8) % c.nprocEta != 0
    case NexXiMultipleOf8 => c.nexXi % 8 != 0
    case NexEtaMultipleOf8 => c.nexEta % 8 != 0
    case NexXiMinimum => c.nexXi < 48
    case NexEtaMinimum => c.nexEta < 48
    case NexPerProcXiDoubling => NexPerProcXi(c) % 16 != 0
    case NexPerProcEtaDoubling => NexPerProcEta(c) % 16 != 0
    case NexPerProcEqual => c.nchunks > 2 && NexPerProcXi(c) != NexPerProcEta(c)
  }

  /** The error `rule` contributes: itself when it fails, nothing otherwise. */
  function Check(c: Config, rule: Rule): (r: seq<Rule>)
    requires c.nprocXi >= 1 && c.nprocEta >= 1
  {
    if Fails(c, rule) then [rule] else []
  }

  /** The errors of the rules on chunk geometry and processor topology. */
  function ChunkErrors(c: Config): seq<Rule>
    requires c.nprocXi >= 1 && c.nprocEta >= 1
  {
    Check(c, WidthXi) + Check(c, WidthEta) + Check(c, ProcTopology)
  }

  /** The errors of the rules that let the mesh coarsen twice in depth. */
  function CoarseningErrors(c: Config): seq<Rule>
    requires c.nprocXi >= 1 && c.nprocEta >= 1
  {
    Check(c, NexXiBlock) + Check(c, NexEtaBlock) + Check(c, NexXiMultipleOf8) + Check(c, NexEtaMultipleOf8)
  }

  /** The errors of the rules on the minimum number of elements. */
  function MinimumErrors(c: Config): seq<Rule>
    requires c.nprocXi >= 1 && c.nprocEta >= 1
  {
    Check(c, NexXiMinimum) + Check(c, NexEtaMinimum)
  }

  /** The errors of the rules on elements per processor. */
  function PerProcErrors(c: Config): seq<Rule>
    requires c.nprocXi >= 1 && c.nprocEta >= 1
  {
    Check(c, NexPerProcXiDoubling) + Check(c, NexPerProcEtaDoubling) + Check(c, NexPerProcEqual)
  }

  /** The errors `_validate` reports for `c`: every rule is checked, in source order,
      and each failing one contributes its own error. */
  function Errors(c: Config): seq<Rule>
    requires c.nprocXi >= 1 && c.nprocEta >= 1
  {
    ChunkErrors(c) + CoarseningErrors(c) + MinimumErrors(c) + PerProcErrors(c)
  }

  /** A configuration `_validate` accepts: no rule reports an error. */
  predicate Accepted(c: Config)
    requires c.nprocXi >= 1 && c.nprocEta >= 1
  {
    Errors(c) == []
  }

  /** The total number of processors the mesh needs: one slice per chunk and processor pair. */
  function NProc(c: Config): int
  {
    c.nchunks * c.nprocXi * c.nprocEta
  }

  // ---------------------------------------------------------------------------
  // The error-collecting context and the imperative validator

  /** The validation context: errors are appended to it and never removed. */
  class Context {
    var errors: seq<Rule>

    constructor ()
      ensures errors == []
    {
      errors := [];
    }

    /** Records the error of `rule`. */
    method Error(rule: Rule)
      modifies this
      ensures errors == old(errors) + [rule]
    {
      errors := errors + [rule];
    }
  }

  /** `_validate`: checks every rule in turn, with no early exit, and appends the
      error of each failing rule to `ctx`. The rules are checked in the four groups
      the source separates by comments. */
  method Validate(c: Config, ctx: Context)
    requires c.nprocXi >= 1 && c.nprocEta >= 1
    modifies ctx
    ensures ctx.errors == old(ctx.errors) + Errors(c)
  {
    ghost var before := ctx.errors;
    ValidateChunks(c, ctx);
    ghost var done := ChunkErrors(c);
    ValidateCoarsening(c, ctx);
    assert ctx.errors == before + (done + CoarseningErrors(c));
    done := done + CoarseningErrors(c);
    ValidateMinimum(c, ctx);
    assert ctx.errors == before + (done + MinimumErrors(c));
    done := done + MinimumErrors(c);
    ValidatePerProc(c, ctx);
    assert ctx.errors == before + (done + PerProcErrors(c));
  }

  /** The chunk geometry must match across chunks, and more than two chunks need a
      square processor grid. */
  method ValidateChunks(c: Config, ctx: Context)
    requires c.nprocXi >= 1 && c.nprocEta >= 1
    modifies ctx
    ensures ctx.errors == old(ctx.errors) + ChunkErrors(c)
  {
    if c.nchunks > 1 && c.angularWidthXi != RightAngle {
      ctx.Error(WidthXi);
    }
    if c.nchunks > 2 && c.angularWidthEta != RightAngle {
      ctx.Error(WidthEta);
    }
    if c.nchunks > 2 && c.nprocXi != c.nprocEta {
      ctx.Error(ProcTopology);
    }
  }

  /** The mesh must coarsen twice in depth: blocks of 8 elements per processor. */
  method ValidateCoarsening(c: Config, ctx: Context)
    requires c.nprocXi >= 1 && c.nprocEta >= 1
    modifies ctx
    ensures ctx.errors == old(ctx.errors) + CoarseningErrors(c)
  {
    if (c.nexXi / 8) % c.nprocXi != 0 {
      ctx.Error(NexXiBlock);
    }
    if (c.nexEta / 8) % c.nprocEta != 0 {
      ctx.Error(NexEtaBlock);
    }
    if c.nexXi % 8 != 0 {
      ctx.Error(NexXiMultipleOf8);
    }
    if c.nexEta % 8 != 0 {
      ctx.Error(NexEtaMultipleOf8);
    }
  }

  /** The sphere must be cut into slices with a positive Jacobian. */
  method ValidateMinimum(c: Config, ctx: Context)
    requires c.nprocXi >= 1 && c.nprocEta >= 1
    modifies ctx
    ensures ctx.errors == old(ctx.errors) + MinimumErrors(c)
  {
    if c.nexXi < 48 {
      ctx.Error(NexXiMinimum);
    }
    if c.nexEta < 48 {
      ctx.Error(NexEtaMinimum);
    }
  }

  /** One doubling layer in the outer core, and for more than two chunks the same
      number of elements per processor in both directions. */
  method ValidatePerProc(c: Config, ctx: Context)
    requires c.nprocXi >= 1 && c.nprocEta >= 1
    modifies ctx
    ensures ctx.errors == old(ctx.errors) + PerProcErrors(c)
  {
    var nexPerProcXi := c.nexXi / c.nprocXi;
    var nexPerProcEta := c.nexEta / c.nprocEta;

    if nexPerProcXi % 16 != 0 {
      ctx.Error(NexPerProcXiDoubling);
    }
    if nexPerProcEta % 16 != 0 {
      ctx.Error(NexPerProcEtaDoubling);
    }
    if c.nchunks > 2 && nexPerProcXi != nexPerProcEta {
      ctx.Error(NexPerProcEqual);
    }
  }

  // ---------------------------------------------------------------------------
  // What the rules imply

  /** The rules each group of `_validate` checks. */
  function GroupOf(rule: Rule): nat
  {
    match rule
    case WidthXi | WidthEta | ProcTopology => 0
    case NexXiBlock | NexEtaBlock | NexXiMultipleOf8 | NexEtaMultipleOf8 => 1
    case NexXiMinimum | NexEtaMinimum => 2
    case NexPerProcXiDoubling | NexPerProcEtaDoubling | NexPerProcEqual => 3
  }

  lemma InCheck(c: Config, rule: Rule, x: Rule)
    requires c.nprocXi >= 1 && c.nprocEta >= 1
    ensures x in Check(c, rule) <==> x == rule && Fails(c, rule)
  {
  }

  /** A group reports exactly its own failing rules. */
  lemma GroupErrors(c: Config, x: Rule)
    requires c.nprocXi >= 1 && c.nprocEta >= 1
    ensures x in ChunkErrors(c) <==> GroupOf(x) == 0 && Fails(c, x)
    ensures x in CoarseningErrors(c) <==> GroupOf(x) == 1 && Fails(c, x)
    ensures x in MinimumErrors(c) <==> GroupOf(x) == 2 && Fails(c, x)
    ensures x in PerProcErrors(c) <==> GroupOf(x) == 3 && Fails(c, x)
  {
    InCheck(c, WidthXi, x);
    InCheck(c, WidthEta, x);
    InCheck(c, ProcTopology, x);
    InCheck(c, NexXiBlock, x);
    InCheck(c, NexEtaBlock, x);
    InCheck(c, NexXiMultipleOf8, x);
    InCheck(c, NexEtaMultipleOf8, x);
    InCheck(c, NexXiMinimum, x);
    InCheck(c, NexEtaMinimum, x);
    InCheck(c, NexPerProcXiDoubling, x);
    InCheck(c, NexPerProcEtaDoubling, x);
    InCheck(c, NexPerProcEqual, x);
  }

  /** Every failing rule is reported and every report is of a failing rule: there is
      no early exit, so all failing rules are reported together. */
  lemma ErrorsAreFailingRules(c: Config)
    requires c.nprocXi >= 1 && c.nprocEta >= 1
    ensures forall rule :: rule in Errors(c) <==> Fails(c, rule)
    ensures Accepted(c) <==> forall rule :: !Fails(c, rule)
  {
    forall rule
      ensures rule in Errors(c) <==> Fails(c, rule)
    {
      GroupErrors(c, rule);
    }
    if !Accepted(c) {
      assert Errors(c)[0] in Errors(c);
    }
  }

  /** More than one chunk needs an angular width of 90 degrees along xi; a single
      chunk may have any width. */
  lemma WidthXiRule(c: Config)
    requires c.nprocXi >= 1 && c.nprocEta >= 1
    ensures WidthXi in Errors(c) <==> c.nchunks > 1 && c.angularWidthXi != RightAngle
  {
    ErrorsAreFailingRules(c);
  }

  /** The eta width is checked only for more than two chunks; with one or two chunks
      any eta width passes. */
  lemma WidthEtaRule(c: Config)
    requires c.nprocXi >= 1 && c.nprocEta >= 1
    ensures c.nchunks <= 2 ==> WidthEta !in Errors(c)
    ensures c.nchunks > 2 ==> (WidthEta in Errors(c) <==> c.angularWidthEta != RightAngle)
  {
    ErrorsAreFailingRules(c);
  }

  /** More than two chunks with different processor counts along xi and eta are reported. */
  lemma ProcTopologyRule(c: Config)
    requires c.nprocXi >= 1 && c.nprocEta >= 1
    ensures ProcTopology in Errors(c) <==> c.nchunks > 2 && c.nprocXi != c.nprocEta
  {
    ErrorsAreFailingRules(c);
  }

  /** `d` divides `q * d` exactly, with quotient `q`. */
  lemma ExactQuotient(q: int, d: int)
    requires d > 0
    ensures (q * d) / d == q && (q * d) % d == 0
  {
    DivModUnique(q * d, d, q, 0);
  }

  /** The two block rules on one direction together say `n` is a multiple of `8 * p`. */
  lemma {:induction false} BlockRules(n: int, p: int)
    requires p >= 1
    ensures (n % 8 == 0 && (n / 8) % p == 0) <==> n % (8 * p) == 0
  {
    if n % 8 == 0 && (n / 8) % p == 0 {
      var b := (n / 8) / p;
      assert n / 8 == p * b;
      assert n == b * (8 * p);
      ExactQuotient(b, 8 * p);
    }
    if n % (8 * p) == 0 {
      var m := n / (8 * p);
      assert n == (p * m) * 8;
      ExactQuotient(p * m, 8);
      assert n / 8 == m * p;
      ExactQuotient(m, p);
    }
  }

  /** Given the block rules, the doubling rule on elements per processor says `n` is
      a multiple of `16 * p`, and then `n / p` is exact. */
  lemma {:induction false} DoublingRule(n: int, p: int)
    requires p >= 1
    requires n % (8 * p) == 0
    ensures (n / p) % 16 == 0 <==> n % (16 * p) == 0
    ensures n == p * (n / p)
  {
    var b := n / (8 * p);
    assert n == (8 * b) * p;
    ExactQuotient(8 * b, p);
    assert n / p == 8 * b;
    if (8 * b) % 16 == 0 {
      var t := (8 * b) / 16;
      assert b == 2 * t;
      assert n == t * (16 * p);
      ExactQuotient(t, 16 * p);
    }
    if n % (16 * p) == 0 {
      var m := n / (16 * p);
      assert n == (16 * m) * p;
      ExactQuotient(16 * m, p);
      assert n / p == m * 16;
      ExactQuotient(m, 16);
    }
  }

  /** The five divisibility rules on one direction (lines 64-75 and 86-97) hold
      together exactly when `n` is a multiple of `16 * p`. */
  lemma DivisibilityRules(n: int, p: int)
    requires p >= 1
    ensures (n % 8 == 0 && (n / 8) % p == 0 && (n / p) % 16 == 0) <==> n % (16 * p) == 0
  {
    BlockRules(n, p);
    if n % (16 * p) == 0 {
      var m := n / (16 * p);
      assert n == (2 * m) * (8 * p);
      ExactQuotient(2 * m, 8 * p);
    }
    if n % (8 * p) == 0 {
      DoublingRule(n, p);
    }
  }

  /** An accepted configuration has NEX_XI a multiple of 8 and of 8 * NPROC_XI, and
      likewise along eta. */
  lemma AcceptedBlocks(c: Config)
    requires c.nprocXi >= 1 && c.nprocEta >= 1
    requires Accepted(c)
    ensures c.nexXi % 8 == 0 && (c.nexXi / 8) % c.nprocXi == 0 && c.nexXi % (8 * c.nprocXi) == 0
    ensures c.nexEta % 8 == 0 && (c.nexEta / 8) % c.nprocEta == 0 && c.nexEta % (8 * c.nprocEta) == 0
  {
    ErrorsAreFailingRules(c);
    assert !Fails(c, NexXiBlock) && !Fails(c, NexXiMultipleOf8);
    assert !Fails(c, NexEtaBlock) && !Fails(c, NexEtaMultipleOf8);
    BlockRules(c.nexXi, c.nprocXi);
    BlockRules(c.nexEta, c.nprocEta);
  }

  /** An accepted configuration has at least 48 elements in each direction; 48 itself
      is accepted (see MinimumIsInclusive). */
  lemma AcceptedMinimum(c: Config)
    requires c.nprocXi >= 1 && c.nprocEta >= 1
    requires Accepted(c)
    ensures c.nexXi >= 48 && c.nexEta >= 48
  {
    ErrorsAreFailingRules(c);
    assert !Fails(c, NexXiMinimum) && !Fails(c, NexEtaMinimum);
  }

  /** 48 elements pass the minimum rules: a single chunk of 48 by 48 elements on one
      processor is accepted. */
  lemma MinimumIsInclusive()
    ensures Accepted(Config(1, RightAngle, RightAngle, 48, 48, 1, 1))
    ensures !Accepted(Config(1, RightAngle, RightAngle, 47, 48, 1, 1))
  {
    var c := Config(1, RightAngle, RightAngle, 48, 48, 1, 1);
    ErrorsAreFailingRules(c);
    var d := Config(1, RightAngle, RightAngle, 47, 48, 1, 1);
    ErrorsAreFailingRules(d);
    assert Fails(d, NexXiMinimum);
  }

  /** An accepted configuration has NEX_XI a multiple of 16 * NPROC_XI, so the
      elements per processor NEX_XI / NPROC_XI divide exactly; likewise along eta. */
  lemma AcceptedDoubling(c: Config)
    requires c.nprocXi >= 1 && c.nprocEta >= 1
    requires Accepted(c)
    ensures c.nexXi % (16 * c.nprocXi) == 0 && c.nexXi == c.nprocXi * NexPerProcXi(c)
    ensures c.nexEta % (16 * c.nprocEta) == 0 && c.nexEta == c.nprocEta * NexPerProcEta(c)
  {
    ErrorsAreFailingRules(c);
    assert !Fails(c, NexPerProcXiDoubling) && !Fails(c, NexPerProcEtaDoubling);
    AcceptedBlocks(c);
    DoublingRule(c.nexXi, c.nprocXi);
    DoublingRule(c.nexEta, c.nprocEta);
  }

  /** With more than two chunks, an accepted configuration has the same processor
      count, the same elements per processor and so the same element count in both
      directions. */
  lemma AcceptedSquare(c: Config)
    requires c.nprocXi >= 1 && c.nprocEta >= 1
    requires Accepted(c) && c.nchunks > 2
    ensures c.nprocXi == c.nprocEta
    ensures NexPerProcXi(c) == NexPerProcEta(c)
    ensures c.nexXi == c.nexEta
  {
    ErrorsAreFailingRules(c);
    assert !Fails(c, ProcTopology) && !Fails(c, NexPerProcEqual);
    AcceptedDoubling(c);
  }

  /** A closed form of acceptance, stated without the rules. */
  predicate Acceptable(c: Config)
    requires c.nprocXi >= 1 && c.nprocEta >= 1
  {
    && (c.nchunks > 1 ==> c.angularWidthXi == RightAngle)
    && (c.nchunks > 2 ==> c.angularWidthEta == RightAngle && c.nprocXi == c.nprocEta && c.nexXi == c.nexEta)
    && c.nexXi >= 48 && c.nexEta >= 48
    && c.nexXi % (16 * c.nprocXi) == 0
    && c.nexEta % (16 * c.nprocEta) == 0
  }

  /** `_validate` accepts exactly the configurations of the closed form. */
  lemma AcceptedIffAcceptable(c: Config)
    requires c.nprocXi >= 1 && c.nprocEta >= 1
    ensures Accepted(c) <==> Acceptable(c)
  {
    ErrorsAreFailingRules(c);
    if Accepted(c) {
      AcceptedMinimum(c);
      AcceptedDoubling(c);
      if c.nchunks > 2 {
        AcceptedSquare(c);
      }
      assert !Fails(c, WidthXi) && !Fails(c, WidthEta);
    }
    if Acceptable(c) {
      DivisibilityRules(c.nexXi, c.nprocXi);
      DivisibilityRules(c.nexEta, c.nprocEta);
      forall rule
        ensures !Fails(c, rule)
      {
      }
    }
  }

  /** The processor count is positive for any configuration the inventory validators
      admit, and each chunk gets NPROC_XI * NPROC_ETA slices. */
  lemma NProcBounds(c: Config)
    requires InventoryValid(c)
    ensures NProc(c) >= c.nchunks >= 1
    ensures NProc(c) % c.nchunks == 0
  {
    var slices := c.nprocXi * c.nprocEta;
    MulAwayFromZero(c.nprocXi, c.nprocEta);
    assert NProc(c) == slices * c.nchunks;
    MulAwayFromZero(c.nchunks, slices);
    ExactQuotient(slices, c.nchunks);
  }

  /** The defaults pass the inventory validators and every rule, and need six processors. */
  lemma DefaultIsValid()
    ensures InventoryValid(Default)
    ensures Accepted(Default)
    ensures NProc(Default) == 6
  {
    ErrorsAreFailingRules(Default);
  }

  /** No early exit: a configuration that breaks several rules gets all of their
      errors, in the order the rules are checked. */
  lemma AllFailuresReported()
    ensures Errors(Config(6, 80.0, 80.0, 40, 40, 1, 1))
         == [WidthXi, WidthEta, NexXiMinimum, NexEtaMinimum, NexPerProcXiDoubling, NexPerProcEtaDoubling]
  {
  }
}
