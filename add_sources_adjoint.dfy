/**
  The device kernel that injects adjoint sources into the acceleration field.
  Work-group (id0, id1) handles the adjoint record
  irec_local = id0 + num_groups0 * id1; if that record exists, each of its
  5 x 5 x 5 work items (i, j, k) adds the record's three source components,
  weighted by the Lagrange interpolants xir[i] * etar[j] * gammar[k], into the
  three acceleration entries of the global node at GLL point (i, j, k) of the
  record's element. Tables that the host fills in Fortran order hold 1-based
  record, element and node numbers.

  Values are reals and the work items of a group run one after another; the
  atomic add is a compare-and-swap loop on a memory no one else writes.
 */
module AddSourcesAdjoint {
  import opened Accumulation
  import opened Arithmetic

  const NDIM: int := 3
  const NGLLX: int := 5
  const NGLL2: int := 25
  const NGLL3: int := 125

  // ---------------------------------------------------------------------------
  // Index macros

  /** INDEX2(isize, i, j): entry (i, j) of a column-major table with columns of isize. */
  function Index2(isize: int, i: int, j: int): int
  {
    i + isize * j
  }

  /** INDEX4(isize, jsize, ksize, i, j, k, x): entry (i, j, k, x) of a column-major
      table of isize x jsize x ksize blocks. */
  function Index4(isize: int, jsize: int, ksize: int, i: int, j: int, k: int, x: int): int
  {
    i + isize * (j + jsize * (k + ksize * x))
  }

  /** Index2 with an in-range row stays in column j and can be decoded back. */
  lemma Index2Inverse(isize: int, i: int, j: int)
    requires 0 <= i < isize
    ensures isize * j <= Index2(isize, i, j) < isize * j + isize
    ensures Index2(isize, i, j) / isize == j && Index2(isize, i, j) % isize == i
  {
    DivModUnique(Index2(isize, i, j), isize, j, i);
  }

  /** INDEX4 is INDEX2 nested three times. */
  lemma Index4Nested(isize: int, jsize: int, ksize: int, i: int, j: int, k: int, x: int)
    ensures Index4(isize, jsize, ksize, i, j, k, x)
         == Index2(isize, i, Index2(jsize, j, Index2(ksize, k, x)))
  {
  }

  /** INDEX4 with in-range i, j, k can be decoded back to (i, j, k, x), so distinct
      index tuples give distinct entries. */
  lemma Index4Inverse(isize: int, jsize: int, ksize: int, i: int, j: int, k: int, x: int)
    requires 0 <= i < isize && 0 <= j < jsize && 0 <= k < ksize
    ensures var n := Index4(isize, jsize, ksize, i, j, k, x);
      && n % isize == i
      && (n / isize) % jsize == j
      && (n / isize / jsize) % ksize == k
      && n / isize / jsize / ksize == x
  {
    Index4Nested(isize, jsize, ksize, i, j, k, x);
    Index2Inverse(ksize, k, x);
    Index2Inverse(jsize, j, Index2(ksize, k, x));
    Index2Inverse(isize, i, Index2(jsize, j, Index2(ksize, k, x)));
  }

  lemma Index4Injective(i: int, j: int, k: int, x: int, i': int, j': int, k': int, x': int)
    requires 0 <= i < NGLLX && 0 <= j < NGLLX && 0 <= k < NGLLX
    requires 0 <= i' < NGLLX && 0 <= j' < NGLLX && 0 <= k' < NGLLX
    requires Index4(NGLLX, NGLLX, NGLLX, i, j, k, x) == Index4(NGLLX, NGLLX, NGLLX, i', j', k', x')
    ensures i == i' && j == j' && k == k' && x == x'
  {
    Index4Inverse(NGLLX, NGLLX, NGLLX, i, j, k, x);
    Index4Inverse(NGLLX, NGLLX, NGLLX, i', j', k', x');
  }

  /** The GLL points of element `ispec` occupy the block [125 * ispec, 125 * ispec + 125) of ibool. */
  lemma Index4Range(i: int, j: int, k: int, ispec: int)
    requires 0 <= i < NGLLX && 0 <= j < NGLLX && 0 <= k < NGLLX
    ensures NGLL3 * ispec <= Index4(NGLLX, NGLLX, NGLLX, i, j, k, ispec) < NGLL3 * ispec + NGLL3
  {
  }

  // ---------------------------------------------------------------------------
  // Kernel arguments and launch geometry

  /** The read-only arguments of the kernel. */
  datatype Buffers = Buffers(
    sourceAdjoint: seq<real>,          // NDIM x nadj_rec_local
    xir: seq<real>,                    // NGLLX x nadj_rec_local
    etar: seq<real>,                   // NGLLX x nadj_rec_local
    gammar: seq<real>,                 // NGLLX x nadj_rec_local
    ibool: seq<int>,                   // NGLLX^3 x nspec, 1-based global nodes
    ispecSelectedRec: seq<int>,        // 1-based element of each record
    numberAdjsourcesGlobal: seq<int>,  // 1-based global record of each local record
    nadjRecLocal: int)

  /** A work-group: get_group_id(0), get_group_id(1) and get_num_groups(0). */
  datatype Group = Group(id0: int, id1: int, numGroups0: int)

  predicate ValidGroup(g: Group)
  {
    0 <= g.id0 < g.numGroups0 && 0 <= g.id1
  }

  /** The local adjoint record the group handles. */
  function RecordIndex(g: Group): int
  {
    g.id0 + g.numGroups0 * g.id1
  }

  /** Whether local record r exists: the kernel's guard. */
  predicate Active(b: Buffers, r: int)
  {
    r < b.nadjRecLocal
  }

  /** A work item: get_local_id(0), get_local_id(1), get_local_id(2). */
  datatype LocalId = LocalId(i: int, j: int, k: int)

  /** The kernel is launched with 5 x 5 x 5 work items per group. */
  predicate InBlock(t: LocalId)
  {
    0 <= t.i < NGLLX && 0 <= t.j < NGLLX && 0 <= t.k < NGLLX
  }

  /** Every table entry that record `r` leads to exists: the global record number
      and the element number are valid 1-based indices, the element's GLL block lies
      in ibool, and the record has its column in each weight table. */
  predicate RecordInTables(b: Buffers, r: int)
  {
    && 0 <= r < |b.numberAdjsourcesGlobal|
    && 1 <= b.numberAdjsourcesGlobal[r] <= |b.ispecSelectedRec|
    && var ispec1 := b.ispecSelectedRec[b.numberAdjsourcesGlobal[r] - 1];
    && 1 <= ispec1
    && NGLL3 * ispec1 <= |b.ibool|
    && NDIM * (r + 1) <= |b.sourceAdjoint|
    && NGLLX * (r + 1) <= |b.xir|
    && NGLLX * (r + 1) <= |b.etar|
    && NGLLX * (r + 1) <= |b.gammar|
  }

  /** The 0-based global record: number_adjsources_global[irec_local] - 1. */
  function Irec(b: Buffers, r: int): int
    requires RecordInTables(b, r)
  {
    b.numberAdjsourcesGlobal[r] - 1
  }

  /** The 0-based element: ispec_selected_rec[irec] - 1. */
  function Ispec(b: Buffers, r: int): int
    requires RecordInTables(b, r)
  {
    b.ispecSelectedRec[Irec(b, r)] - 1
  }

  /** The 0-based global node of GLL point t of the record's element. */
  function Iglob(b: Buffers, r: int, t: LocalId): int
    requires RecordInTables(b, r) && InBlock(t)
  {
    b.ibool[Index4(NGLLX, NGLLX, NGLLX, t.i, t.j, t.k, Ispec(b, r))] - 1
  }

  /** Every global node of the record's element is a valid 1-based node number
      whose three components lie in an acceleration buffer of length n. */
  ghost predicate RecordReadable(b: Buffers, r: int, n: int)
  {
    && RecordInTables(b, r)
    && forall t :: InBlock(t) ==> 0 <= Iglob(b, r, t) && 3 * Iglob(b, r, t) + 3 <= n
  }

  /** What work item t adds to component c of its node: the record's source
      component times the three interpolation weights of the point. */
  function Weight(b: Buffers, r: int, c: int, t: LocalId): real
    requires RecordInTables(b, r) && InBlock(t) && 0 <= c < NDIM
  {
    Index2Inverse(NDIM, c, r);
    Index2Inverse(NGLLX, t.i, r);
    Index2Inverse(NGLLX, t.j, r);
    Index2Inverse(NGLLX, t.k, r);
    b.sourceAdjoint[Index2(NDIM, c, r)] * b.xir[Index2(NGLLX, t.i, r)]
      * b.etar[Index2(NGLLX, t.j, r)] * b.gammar[Index2(NGLLX, t.k, r)]
  }

  /** The kernel's precondition for the group of local record r: if the record
      exists, everything it leads to is in bounds. */
  ghost predicate Launchable(b: Buffers, r: int, n: int)
  {
    Active(b, r) ==> RecordReadable(b, r, n)
  }

  // ---------------------------------------------------------------------------
  // What the work items add

  /** The atomic adds of work item t of the group of local record r, in program order. */
  function WorkItemUpdates(b: Buffers, r: int, t: LocalId, n: int): (us: seq<Update>)
    requires Launchable(b, r, n) && InBlock(t)
    ensures Targets(us, n)
  {
    if Active(b, r) then
      var iglob := Iglob(b, r, t);
      [ Update(iglob * 3 + 0, Weight(b, r, 0, t)),
        Update(iglob * 3 + 1, Weight(b, r, 1, t)),
        Update(iglob * 3 + 2, Weight(b, r, 2, t)) ]
    else
      []
  }

  /** The atomic adds of the work items ts of the group of local record r, one work item
      after another. */
  function GroupUpdates(b: Buffers, r: int, ts: seq<LocalId>, n: int): (us: seq<Update>)
    requires Launchable(b, r, n)
    requires forall q :: 0 <= q < |ts| ==> InBlock(ts[q])
    ensures Targets(us, n)
    decreases |ts|
  {
    if ts == [] then []
    else
      var prefix := GroupUpdates(b, r, ts[..|ts| - 1], n);
      var last := WorkItemUpdates(b, r, ts[|ts| - 1], n);
      assert Targets(prefix + last, n) by {
        forall q | 0 <= q < |prefix + last|
          ensures 0 <= (prefix + last)[q].pos < n
        {
          if q >= |prefix| {
            assert (prefix + last)[q] == last[q - |prefix|];
          }
        }
      }
      prefix + last
  }

  /** The work items of a group in the order of their linear local id, i fastest. */
  function LocalIds(): (ts: seq<LocalId>)
  {
    seq(NGLL3, q => LocalId(q % NGLLX, (q / NGLLX) % NGLLX, q / NGLL2))
  }

  // ---------------------------------------------------------------------------
  // The kernel

  /** atomic_cmpxchg: stores `desired` at p when p holds `expected`, and returns what
      p held. The source compares bit patterns; here values are compared. */
  method CompareExchange(buf: array<real>, p: int, expected: real, desired: real) returns (observed: real)
    requires 0 <= p < buf.Length
    modifies buf
    ensures observed == old(buf[p])
    ensures buf[..] == if observed == expected then old(buf[..])[p := desired] else old(buf[..])
  {
    observed := buf[p];
    if observed == expected {
      buf[p] := desired;
    }
  }

  /** atomicAdd: read, add, and compare-and-swap until the swap succeeds; the swap
      that succeeds stores the value read plus `val`. */
  method AtomicAdd(buf: array<real>, p: int, val: real)
    requires 0 <= p < buf.Length
    modifies buf
    ensures buf[..] == old(buf[..])[p := old(buf[p]) + val]
  {
    var swapped := false;
    while !swapped
      invariant swapped ==> buf[..] == old(buf[..])[p := old(buf[p]) + val]
      invariant !swapped ==> buf[..] == old(buf[..])
      decreases if swapped then 0 else 1
    {
      var orig := buf[p];
      var res := orig + val;
      var observed := CompareExchange(buf, p, orig, res);
      swapped := observed == orig;
    }
  }

  /** The kernel body as work item (i, j, k) of group g runs it. */
  method WorkItem(accel: array<real>, b: Buffers, g: Group, ghost r: int, i: int, j: int, k: int)
    requires r == RecordIndex(g)
    requires Launchable(b, r, accel.Length) && InBlock(LocalId(i, j, k))
    modifies accel
    ensures accel[..] == Apply(old(accel[..]), WorkItemUpdates(b, r, LocalId(i, j, k), accel.Length))
  {
    var irecLocal := g.id0 + g.numGroups0 * g.id1;
    if irecLocal < b.nadjRecLocal {
      var irec := b.numberAdjsourcesGlobal[irecLocal] - 1;
      var ispec := b.ispecSelectedRec[irec] - 1;
      Index4Range(i, j, k, ispec);
      var iglob := b.ibool[Index4(NGLLX, NGLLX, NGLLX, i, j, k, ispec)] - 1;
      assert iglob == Iglob(b, irecLocal, LocalId(i, j, k));
      Index2Inverse(NDIM, 0, irecLocal);
      Index2Inverse(NDIM, 1, irecLocal);
      Index2Inverse(NDIM, 2, irecLocal);
      Index2Inverse(NGLLX, i, irecLocal);
      Index2Inverse(NGLLX, j, irecLocal);
      Index2Inverse(NGLLX, k, irecLocal);
      // The values added are the weights of the specification.
      ghost var a0, t := accel[..], LocalId(i, j, k);
      ghost var w := seq(NDIM, c requires 0 <= c < NDIM => Weight(b, irecLocal, c, t));
      assert w[0] == b.sourceAdjoint[Index2(NDIM, 0, irecLocal)] * b.xir[Index2(NGLLX, i, irecLocal)]
          * b.etar[Index2(NGLLX, j, irecLocal)] * b.gammar[Index2(NGLLX, k, irecLocal)];
      assert w[1] == b.sourceAdjoint[Index2(NDIM, 1, irecLocal)] * b.xir[Index2(NGLLX, i, irecLocal)]
          * b.etar[Index2(NGLLX, j, irecLocal)] * b.gammar[Index2(NGLLX, k, irecLocal)];
      assert w[2] == b.sourceAdjoint[Index2(NDIM, 2, irecLocal)] * b.xir[Index2(NGLLX, i, irecLocal)]
          * b.etar[Index2(NGLLX, j, irecLocal)] * b.gammar[Index2(NGLLX, k, irecLocal)];
      ghost var u0, u1, u2 := Update(iglob * 3 + 0, w[0]), Update(iglob * 3 + 1, w[1]), Update(iglob * 3 + 2, w[2]);
      assert [u0][..0] == [] && [u0, u1][..1] == [u0] && [u0, u1, u2][..2] == [u0, u1];
      AtomicAdd(accel, iglob * 3 + 0,
        b.sourceAdjoint[Index2(NDIM, 0, irecLocal)] * b.xir[Index2(NGLLX, i, irecLocal)]
          * b.etar[Index2(NGLLX, j, irecLocal)] * b.gammar[Index2(NGLLX, k, irecLocal)]);
      assert accel[..] == Apply(a0, [u0]);
      AtomicAdd(accel, iglob * 3 + 1,
        b.sourceAdjoint[Index2(NDIM, 1, irecLocal)] * b.xir[Index2(NGLLX, i, irecLocal)]
          * b.etar[Index2(NGLLX, j, irecLocal)] * b.gammar[Index2(NGLLX, k, irecLocal)]);
      assert accel[..] == Apply(a0, [u0, u1]);
      AtomicAdd(accel, iglob * 3 + 2,
        b.sourceAdjoint[Index2(NDIM, 2, irecLocal)] * b.xir[Index2(NGLLX, i, irecLocal)]
          * b.etar[Index2(NGLLX, j, irecLocal)] * b.gammar[Index2(NGLLX, k, irecLocal)]);
      assert WorkItemUpdates(b, irecLocal, t, accel.Length) == [u0, u1, u2];
    }
  }

  /** One work-group: its 125 work items, run one after another in the order of
      their linear local id. */
  method WorkGroup(accel: array<real>, b: Buffers, g: Group)
    requires Launchable(b, RecordIndex(g), accel.Length)
    modifies accel
    ensures accel[..] == Apply(old(accel[..]), GroupUpdates(b, RecordIndex(g), LocalIds(), accel.Length))
  {
    ghost var r := RecordIndex(g);
    var ids := LocalIds();
    LocalIdsInBlock();
    for q := 0 to NGLL3
      invariant accel[..] == Apply(old(accel[..]), GroupUpdates(b, r, ids[..q], accel.Length))
    {
      var t := ids[q];
      WorkItem(accel, b, g, r, t.i, t.j, t.k);
      assert ids[..q + 1][..q] == ids[..q] && ids[..q + 1][q] == t;
      ApplyConcat(old(accel[..]), GroupUpdates(b, r, ids[..q], accel.Length),
                  WorkItemUpdates(b, r, t, accel.Length));
    }
    assert ids[..NGLL3] == ids;
  }

  // ---------------------------------------------------------------------------
  // Properties of the kernel

  /** Every linear local id below 125 is a work item of the 5 x 5 x 5 block. */
  lemma LocalIdsInBlock()
    ensures |LocalIds()| == NGLL3
    ensures forall q :: 0 <= q < NGLL3 ==> InBlock(LocalIds()[q])
  {
  }

  /** The launch has one work item per GLL point: the linear local id
      i + 5 * (j + 5 * k) is work item (i, j, k). */
  lemma LocalIdsEnumerateBlock()
    ensures |LocalIds()| == NGLL3
    ensures forall t :: InBlock(t) ==> LocalIds()[Index2(NGLLX, t.i, Index2(NGLLX, t.j, t.k))] == t
  {
    forall t | InBlock(t)
      ensures LocalIds()[Index2(NGLLX, t.i, Index2(NGLLX, t.j, t.k))] == t
    {
      var q := Index2(NGLLX, t.i, Index2(NGLLX, t.j, t.k));
      Index2Inverse(NGLLX, t.j, t.k);
      Index2Inverse(NGLLX, t.i, Index2(NGLLX, t.j, t.k));
      DivModUnique(q, NGLL2, t.k, t.i + NGLLX * t.j);
    }
  }

  /** Distinct groups of one launch handle distinct records. */
  lemma RecordIndexInjective(g: Group, h: Group)
    requires ValidGroup(g) && ValidGroup(h) && g.numGroups0 == h.numGroups0
    requires RecordIndex(g) == RecordIndex(h)
    ensures g == h
  {
    Index2Inverse(g.numGroups0, g.id0, g.id1);
    Index2Inverse(h.numGroups0, h.id0, h.id1);
  }

  /** Every local record is handled by a group: record r by group (r % n0, r / n0). */
  lemma RecordHandled(r: int, numGroups0: int)
    requires 0 <= r && 1 <= numGroups0
    ensures ValidGroup(Group(r % numGroups0, r / numGroups0, numGroups0))
    ensures RecordIndex(Group(r % numGroups0, r / numGroups0, numGroups0)) == r
  {
  }

  /** Every read the kernel makes for record r and work item t, and every write, is
      in bounds. */
  lemma AccessesInBounds(b: Buffers, r: int, t: LocalId, n: int)
    requires RecordReadable(b, r, n) && InBlock(t)
    ensures 0 <= r < |b.numberAdjsourcesGlobal|
    ensures 0 <= Irec(b, r) < |b.ispecSelectedRec|
    ensures 0 <= Index4(NGLLX, NGLLX, NGLLX, t.i, t.j, t.k, Ispec(b, r)) < |b.ibool|
    ensures forall c :: 0 <= c < NDIM ==> 0 <= Index2(NDIM, c, r) < |b.sourceAdjoint|
    ensures 0 <= Index2(NGLLX, t.i, r) < |b.xir|
    ensures 0 <= Index2(NGLLX, t.j, r) < |b.etar|
    ensures 0 <= Index2(NGLLX, t.k, r) < |b.gammar|
    ensures 0 <= Iglob(b, r, t) * 3 && Iglob(b, r, t) * 3 + 2 < n
  {
    Index4Range(t.i, t.j, t.k, Ispec(b, r));
    forall c | 0 <= c < NDIM
      ensures 0 <= Index2(NDIM, c, r) < |b.sourceAdjoint|
    {
      Index2Inverse(NDIM, c, r);
    }
    Index2Inverse(NGLLX, t.i, r);
    Index2Inverse(NGLLX, t.j, r);
    Index2Inverse(NGLLX, t.k, r);
  }

  /** What work item t of record r adds to component c of global node x: its weight
      if its GLL point is node x, nothing otherwise. */
  function NodeShare(b: Buffers, r: int, x: int, c: int, t: LocalId): real
    requires RecordInTables(b, r) && 0 <= c < NDIM
  {
    if InBlock(t) && Iglob(b, r, t) == x then Weight(b, r, c, t) else 0.0
  }

  /** What work items ts of record r add, together, to component c of node x. */
  function Shares(b: Buffers, r: int, x: int, c: int, ts: seq<LocalId>): real
    requires RecordInTables(b, r) && 0 <= c < NDIM
    decreases |ts|
  {
    if ts == [] then 0.0
    else Shares(b, r, x, c, ts[..|ts| - 1]) + NodeShare(b, r, x, c, ts[|ts| - 1])
  }

  /** Work items whose GLL points are not node x add nothing to it. */
  lemma {:induction false} SharesOutside(b: Buffers, r: int, x: int, c: int, ts: seq<LocalId>)
    requires RecordInTables(b, r) && 0 <= c < NDIM
    requires forall t :: InBlock(t) ==> Iglob(b, r, t) != x
    ensures Shares(b, r, x, c, ts) == 0.0
    decreases |ts|
  {
    if ts != [] {
      SharesOutside(b, r, x, c, ts[..|ts| - 1]);
    }
  }

  /** The adds of one work item amount, at component c of node x, to its share. */
  lemma WorkItemDelta(b: Buffers, r: int, t: LocalId, n: int, x: int, c: int)
    requires Launchable(b, r, n) && InBlock(t) && Active(b, r) && 0 <= c < NDIM
    ensures Delta(WorkItemUpdates(b, r, t, n), 3 * x + c) == NodeShare(b, r, x, c, t)
  {
    var us := WorkItemUpdates(b, r, t, n);
    var p := 3 * x + c;
    var iglob := Iglob(b, r, t);
    assert us == [us[0]] + [us[1]] + [us[2]];
    DeltaAppend([us[0]] + [us[1]], [us[2]], p);
    DeltaAppend([us[0]], [us[1]], p);
    DeltaSingle(us[0], p);
    DeltaSingle(us[1], p);
    DeltaSingle(us[2], p);
    Index2Inverse(NDIM, c, x);
    Index2Inverse(NDIM, 0, iglob);
    Index2Inverse(NDIM, 1, iglob);
    Index2Inverse(NDIM, 2, iglob);
    if iglob == x {
      assert AddedAt(us[c], p) == Weight(b, r, c, t);
    } else {
      assert AddedAt(us[0], p) == AddedAt(us[1], p) == AddedAt(us[2], p) == 0.0;
    }
  }

  /** Work item t changes entry p of accel (component p % 3 of node p / 3) by its
      share, which is its weight when p is one of its node's three entries and
      nothing otherwise; a work item of a group without a record changes nothing. */
  lemma WorkItemEffect(b: Buffers, r: int, t: LocalId, a: seq<real>, p: int)
    requires Launchable(b, r, |a|) && InBlock(t) && 0 <= p < |a|
    ensures Apply(a, WorkItemUpdates(b, r, t, |a|))[p]
         == a[p] + (if Active(b, r) then NodeShare(b, r, p / 3, p % 3, t) else 0.0)
  {
    var us := WorkItemUpdates(b, r, t, |a|);
    ApplyAt(a, us, p);
    if Active(b, r) {
      WorkItemDeltaAt(b, r, t, |a|, p);
    } else {
      assert us == [];
    }
  }

  /** WorkItemDelta at entry p, that is at component p % 3 of node p / 3. */
  lemma WorkItemDeltaAt(b: Buffers, r: int, t: LocalId, n: int, p: int)
    requires Launchable(b, r, n) && InBlock(t) && Active(b, r)
    ensures Delta(WorkItemUpdates(b, r, t, n), p) == NodeShare(b, r, p / 3, p % 3, t)
  {
    var x, c := p / 3, p % 3;
    assert p == 3 * x + c;
    WorkItemDelta(b, r, t, n, x, c);
  }

  /** Appending one more work item's adds raises the total by its share. */
  lemma GroupDeltaStep(b: Buffers, r: int, prefix: seq<Update>, t: LocalId, n: int, x: int, c: int)
    requires Launchable(b, r, n) && Active(b, r) && InBlock(t) && 0 <= c < NDIM
    ensures Delta(prefix + WorkItemUpdates(b, r, t, n), 3 * x + c)
         == Delta(prefix, 3 * x + c) + NodeShare(b, r, x, c, t)
  {
    DeltaAppend(prefix, WorkItemUpdates(b, r, t, n), 3 * x + c);
    WorkItemDelta(b, r, t, n, x, c);
  }

  /** The adds of work items ts of an active group amount, at component c of node x,
      to the sum of their shares. */
  lemma {:induction false} GroupDelta(b: Buffers, r: int, ts: seq<LocalId>, n: int, x: int, c: int)
    requires Launchable(b, r, n) && Active(b, r) && 0 <= c < NDIM
    requires forall q :: 0 <= q < |ts| ==> InBlock(ts[q])
    ensures Delta(GroupUpdates(b, r, ts, n), 3 * x + c)
         == Shares(b, r, x, c, ts)
    decreases |ts|
  {
    if ts != [] {
      GroupDelta(b, r, ts[..|ts| - 1], n, x, c);
      GroupDeltaStep(b, r, GroupUpdates(b, r, ts[..|ts| - 1], n), ts[|ts| - 1], n, x, c);
    }
  }

  /** A group whose record does not exist adds nothing. */
  lemma {:induction false} InactiveGroupAddsNothing(b: Buffers, r: int, ts: seq<LocalId>, n: int)
    requires Launchable(b, r, n) && !Active(b, r)
    requires forall q :: 0 <= q < |ts| ==> InBlock(ts[q])
    ensures GroupUpdates(b, r, ts, n) == []
    decreases |ts|
  {
    if ts != [] {
      InactiveGroupAddsNothing(b, r, ts[..|ts| - 1], n);
    }
  }

  /** When the group's record does not exist, accel is left unchanged. */
  lemma InactiveGroupUnchanged(b: Buffers, r: int, a: seq<real>)
    requires Launchable(b, r, |a|) && !Active(b, r)
    ensures Apply(a, GroupUpdates(b, r, LocalIds(), |a|)) == a
  {
    LocalIdsInBlock();
    InactiveGroupAddsNothing(b, r, LocalIds(), |a|);
  }

  /** After an active group, entry p of accel (component p % 3 of node p / 3) holds
      its old value plus the shares of all 125 work items. */
  lemma ActiveGroupAdds(b: Buffers, r: int, a: seq<real>, p: int)
    requires Launchable(b, r, |a|) && Active(b, r) && 0 <= p < |a|
    ensures Apply(a, GroupUpdates(b, r, LocalIds(), |a|))[p]
         == a[p] + Shares(b, r, p / 3, p % 3, LocalIds())
  {
    LocalIdsInBlock();
    var x, c := p / 3, p % 3;
    assert p == 3 * x + c;
    ApplyAt(a, GroupUpdates(b, r, LocalIds(), |a|), p);
    GroupDelta(b, r, LocalIds(), |a|, x, c);
  }

  /** Only the node triples of the record's element change: an entry whose node is
      not a GLL point of the element keeps its value. */
  lemma OnlyElementNodesChange(b: Buffers, r: int, a: seq<real>, p: int)
    requires Launchable(b, r, |a|) && 0 <= p < |a|
    requires Active(b, r) ==> forall t :: InBlock(t) ==> Iglob(b, r, t) != p / 3
    ensures Apply(a, GroupUpdates(b, r, LocalIds(), |a|))[p] == a[p]
  {
    if Active(b, r) {
      LocalIdsInBlock();
      ActiveGroupAdds(b, r, a, p);
      SharesOutside(b, r, p / 3, p % 3, LocalIds());
    } else {
      InactiveGroupUnchanged(b, r, a);
    }
  }

  /** The work items of a group may run in any order, their atomic adds interleaved
      in any way: every reordering of the group's adds leaves the same accel. */
  lemma GroupOrderIrrelevant(b: Buffers, r: int, a: seq<real>, us: seq<Update>)
    requires Launchable(b, r, |a|)
    requires multiset(us) == multiset(GroupUpdates(b, r, LocalIds(), |a|))
    ensures Targets(us, |a|)
    ensures Apply(a, us) == Apply(a, GroupUpdates(b, r, LocalIds(), |a|))
  {
    LocalIdsInBlock();
    ApplyPermutation(a, GroupUpdates(b, r, LocalIds(), |a|), us);
  }
}
