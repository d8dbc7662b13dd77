/** Updates that start before the journal is in force: with both sectors freshly erased the status word reads
    as erased, and an interrupted recovery merges the half-built copy into the main sector. */
module FlashErased {
  import opened FlashOps
  import opened FlashStore
  import opened FlashEffects

  /** What an update writes into its slot, from start to end: `head` bytes, a gap, and the rest. Whatever it
      does not write there is left erased, and the rest of the sector is copied in whole words. */
  datatype Draft = Draft(start: nat, head: nat, gap: nat, bytes: seq<Byte>, end: nat)

  predicate Proper(d: Draft) {
    d.head <= |d.bytes| && d.start + d.gap + |d.bytes| <= d.end <= STATUS_OFFSET && d.end % 4 == 0 && d.start % 4 == 0
  }

  /** Where byte j of the draft goes. */
  function AddressOf(d: Draft, j: nat): nat {
    if j < d.head then d.start + j else d.start + d.gap + j
  }

  /** The byte of the draft that goes to address i, if any. */
  function IndexAt(d: Draft, i: nat): (j: Option)
    ensures j.Some? ==> AddressOf(d, j.value) == i && j.value < |d.bytes|
    ensures j.None? ==> forall k :: 0 <= k < |d.bytes| ==> AddressOf(d, k) != i
  {
    if d.start <= i < d.start + d.head && i - d.start < |d.bytes| then Some(i - d.start)
    else if d.start + d.gap + d.head <= i < d.start + d.gap + |d.bytes| then Some(i - d.start - d.gap)
    else None
  }

  datatype Option = None | Some(value: nat)

  function InSlot(d: Draft, i: nat): bool {
    d.start <= i < d.end
  }

  /** The main sector's image with the first n bytes of the draft merged into it. */
  function MergedImage(main: Sector, d: Draft, n: nat): (r: seq<Byte>)
    ensures |r| == STATUS_OFFSET
  {
    seq(STATUS_OFFSET, i requires 0 <= i < STATUS_OFFSET =>
      var j := IndexAt(d, i); if j.Some? && j.value < n then main[i] & d.bytes[j.value] else main[i])
  }

  /** The image the update is to leave. */
  function NewImage(main: Sector, d: Draft): (r: seq<Byte>)
    ensures |r| == STATUS_OFFSET
  {
    seq(STATUS_OFFSET, i requires 0 <= i < STATUS_OFFSET =>
      var j := IndexAt(d, i); if j.Some? then d.bytes[j.value] else if InSlot(d, i) then 0xFF else main[i])
  }

  /** How many bytes of the draft the first k operations of a build have programmed. */
  function BytesDone(d: Draft, k: nat): (n: nat)
    ensures n <= |d.bytes|
  {
    if k == 0 then 0 else if k <= |d.bytes| then k - 1 else |d.bytes|
  }

  // ---- A build, operation by operation ----

  /** A word outside the slot is copied to where it was. */
  predicate CopiesWord(op: Op, main: Sector, d: Draft, w: nat) {
    w + 4 <= STATUS_OFFSET && (w + 4 <= d.start || d.end <= w) && op == ProgramCopy(w, main[w..w + 4])
  }

  /** The operation at each place of a build: erase, the draft's bytes in order, and words of the rest. */
  ghost predicate BuildOp(op: Op, main: Sector, d: Draft, k: nat) {
    if k == 0 then op == EraseCopy
    else if k <= |d.bytes| then op == ProgramCopy(AddressOf(d, k - 1), [d.bytes[k - 1]])
    else exists w: nat :: CopiesWord(op, main, d, w)
  }

  ghost predicate DraftBuild(build: seq<Op>, main: Sector, d: Draft) {
    Proper(d) && |build| > |d.bytes| && forall k :: 0 <= k < |build| ==> BuildOp(build[k], main, d, k)
  }

  /** The copy sector part way through a build at byte i. */
  ghost predicate PartlyAt(copy: Sector, main: Sector, d: Draft, n: nat, i: nat)
    requires i < STATUS_OFFSET
  {
    var j := IndexAt(d, i);
    if j.Some? then copy[i] == if j.value < n then d.bytes[j.value] else 0xFF
    else copy[i] == 0xFF || (copy[i] == main[i] && !InSlot(d, i))
  }

  ghost predicate PartlyBuilt(copy: Sector, main: Sector, d: Draft, n: nat) {
    && (forall i :: 0 <= i < STATUS_OFFSET ==> PartlyAt(copy, main, d, n, i))
    && (forall i :: STATUS_OFFSET <= i < 4 * RESTORE_WORDS ==> copy[i] == 0xFF)
  }

  lemma PartlyMerges(f: Memory, d: Draft, n: nat)
    requires PartlyBuilt(f.copy, f.main, d, n)
    ensures Merges(f, MergedImage(f.main, d, n))
  {
    hide IndexAt, InSlot;
    var image := MergedImage(f.main, d, n);
    forall i | 0 <= i < STATUS_OFFSET ensures f.main[i] & f.copy[i] == image[i] {
      assert PartlyAt(f.copy, f.main, d, n, i);
      AndAll(f.main[i]);
    }
  }

  lemma BuildByte(copy: Sector, main: Sector, d: Draft, n: nat)
    requires Proper(d) && n < |d.bytes| && PartlyBuilt(copy, main, d, n)
    ensures PartlyBuilt(Program(copy, AddressOf(d, n), [d.bytes[n]]), main, d, n + 1)
  {
    hide Program;
    var p, m := Program(copy, AddressOf(d, n), [d.bytes[n]]), n + 1;
    AndAll(d.bytes[n]);
    forall i | 0 <= i < STATUS_OFFSET ensures PartlyAt(p, main, d, m, i) {
      assert PartlyAt(copy, main, d, n, i);
    }
  }

  lemma BuildWord(copy: Sector, main: Sector, d: Draft, w: nat)
    requires Proper(d) && w + 4 <= STATUS_OFFSET && (w + 4 <= d.start || d.end <= w)
    requires PartlyBuilt(copy, main, d, |d.bytes|)
    ensures PartlyBuilt(Program(copy, w, main[w..w + 4]), main, d, |d.bytes|)
  {
    hide Program;
    var p := Program(copy, w, main[w..w + 4]);
    forall i | 0 <= i < STATUS_OFFSET ensures PartlyAt(p, main, d, |d.bytes|, i) {
      assert PartlyAt(copy, main, d, |d.bytes|, i);
      if w <= i < w + 4 {
        assert main[w..w + 4][i - w] == main[i];
        AndAll(main[i]);
      }
    }
  }

  lemma BlankIsPartlyBuilt(copy: Sector, main: Sector, d: Draft)
    requires Blank(copy, 0, 4 * RESTORE_WORDS)
    ensures PartlyBuilt(copy, main, d, 0)
  {
    hide IndexAt;
  }

  lemma BuildStep(main: Sector, d: Draft, op: Op, k: nat, f: Memory)
    requires Proper(d) && BuildOp(op, main, d, k) && PartlyBuilt(f.copy, main, d, BytesDone(d, k))
    ensures PartlyBuilt(Apply(f, op).copy, main, d, BytesDone(d, k + 1))
  {
    hide Program, PartlyBuilt, Proper;
    if k == 0 {
      BlankIsPartlyBuilt(Erased(), main, d);
    } else if k <= |d.bytes| {
      BuildByte(f.copy, main, d, k - 1);
    } else {
      var w: nat :| CopiesWord(op, main, d, w);
      BuildWord(f.copy, main, d, w);
    }
  }

  /** What a build cut off after k operations has left, from an empty copy sector. */
  lemma {:induction false} BuildPrefix(f: Memory, build: seq<Op>, d: Draft, k: nat)
    requires DraftBuild(build, f.main, d) && OnCopy(build) && Blank(f.copy, 0, 4 * RESTORE_WORDS) && k <= |build|
    ensures var g := ApplyAll(f, build[..k]); g.main == f.main && PartlyBuilt(g.copy, f.main, d, BytesDone(d, k))
  {
    hide PartlyBuilt, Apply, BuildOp, Proper;
    if k == 0 {
      assert build[..0] == [];
      BlankIsPartlyBuilt(f.copy, f.main, d);
    } else {
      BuildPrefix(f, build, d, k - 1);
      assert build[..k] == build[..k - 1] + [build[k - 1]];
      ApplyLast(f, build[..k - 1], build[k - 1]);
      BuildStep(f.main, d, build[k - 1], k - 1, ApplyAll(f, build[..k - 1]));
      OnCopyKeepsMain(f, build[..k]);
    }
  }

  // ---- Interrupted updates ----

  /** What operations leave that are cut off after k of them, and in recovery again and again. */
  function Outcome(f: Memory, ops: seq<Op>, k: nat, crashes: seq<nat>): seq<Byte> {
    Image(Recovered(AfterCrashes(ApplyAll(f, Cut(ops, k)), crashes)).main)
  }

  /** From an erased status and an empty copy sector: the part of the draft already in the copy is merged into
      the old image, until the copy has been marked. */
  lemma ErasedOutcome(f: Memory, build: seq<Op>, d: Draft, k: nat, crashes: seq<nat>)
    requires Status(f) == MAIN_SECTOR_ERASED && Blank(f.copy, 0, 4 * RESTORE_WORDS)
    requires DraftBuild(build, f.main, d) && Builds(f, build, NewImage(f.main, d))
    ensures Outcome(f, UpdateOps(f, build), k, crashes)
         == if k <= |build| then MergedImage(f.main, d, BytesDone(d, k)) else NewImage(f.main, d)
  {
    hide ApplyAll, UpdateOps, Recovered, AfterCrashes, PartlyBuilt, MergedImage, NewImage, Merges, CopyHolds, BuildOp;
    var ops := UpdateOps(f, build);
    var n := if k < |ops| then k else |ops|;
    assert ops[..|ops|] == ops;
    var g := ApplyAll(f, ops[..n]);
    UpdatePrefix(f, build, NewImage(f.main, d), n);
    BuildIsShorter(f, build);
    if k <= |build| {
      assert ops[..k] == build[..k] by { UpdateStarts(f, build, k); }
      BuildPrefix(f, build, d, k);
      assert Status(g) == Status(f);
      PartlyMerges(g, d, BytesDone(d, k));
      JournalRecovers(g, MergedImage(f.main, d, BytesDone(d, k)), crashes);
    } else {
      JournalRecovers(g, NewImage(f.main, d), crashes);
    }
  }

  lemma BuildIsShorter(f: Memory, build: seq<Op>)
    ensures |build| < |UpdateOps(f, build)|
  {
  }

  lemma UpdateStarts(f: Memory, build: seq<Op>, k: nat)
    requires k <= |build|
    ensures k <= |UpdateOps(f, build)| && UpdateOps(f, build)[..k] == build[..k]
  {
  }

  // ---- Exactly which updates are safe ----

  /** The interrupted update ended in the old image or in the new one. */
  predicate OldOrNew(f: Memory, ops: seq<Op>, d: Draft, k: nat, crashes: seq<nat>) {
    Outcome(f, ops, k, crashes) in {Image(f.main), NewImage(f.main, d)}
  }

  /** Byte j of the draft clears no bit of what is stored. */
  predicate Keeps(main: Sector, d: Draft, j: nat)
    requires Proper(d) && j < |d.bytes|
  {
    Fits(d.bytes[j], main[AddressOf(d, j)])
  }

  predicate KeepsBits(main: Sector, d: Draft)
    requires Proper(d)
  {
    forall j :: 0 <= j < |d.bytes| ==> Keeps(main, d, j)
  }

  /** The draft changes a single byte, which can be programmed over; the rest of the slot is as the update would
      leave it. */
  predicate OnlyByte(main: Sector, d: Draft, b: nat)
    requires Proper(d) && b < |d.bytes|
  {
    && Fits(main[AddressOf(d, b)], d.bytes[b])
    && forall i :: 0 <= i < STATUS_OFFSET && i != AddressOf(d, b) ==> NewImage(main, d)[i] == main[i]
  }

  ghost predicate OneByte(main: Sector, d: Draft)
    requires Proper(d)
  {
    exists b :: 0 <= b < |d.bytes| && OnlyByte(main, d, b)
  }

  /** The first byte of the draft that clears a bit. */
  lemma FirstLost(main: Sector, d: Draft) returns (b: nat)
    requires Proper(d) && !KeepsBits(main, d)
    ensures b < |d.bytes| && !Keeps(main, d, b) && forall j :: 0 <= j < b ==> Keeps(main, d, j)
  {
    hide Keeps;
    b := 0;
    while Keeps(main, d, b)
      invariant b < |d.bytes| && forall j :: 0 <= j < b ==> Keeps(main, d, j)
      invariant exists j :: b <= j < |d.bytes| && !Keeps(main, d, j)
      decreases |d.bytes| - b
    {
      b := b + 1;
    }
  }

  lemma MergedKeeps(main: Sector, d: Draft, n: nat)
    requires Proper(d) && n <= |d.bytes|
    ensures MergedImage(main, d, n) == Image(main) <==> forall j :: 0 <= j < n ==> Keeps(main, d, j)
  {
    var merged := MergedImage(main, d, n);
    forall j | 0 <= j < n ensures merged[AddressOf(d, j)] == Image(main)[AddressOf(d, j)] <==> Keeps(main, d, j) {
      AndSymmetric(main[AddressOf(d, j)], d.bytes[j]);
    }
    if forall j :: 0 <= j < n ==> Keeps(main, d, j) {
      forall i | 0 <= i < STATUS_OFFSET ensures merged[i] == Image(main)[i] {
        var j := IndexAt(d, i);
        if j.Some? && j.value < n {
          assert Keeps(main, d, j.value) && i == AddressOf(d, j.value);
          AndSymmetric(main[i], d.bytes[j.value]);
        }
      }
    }
  }

  lemma KeptElsewhere(main: Sector, d: Draft, c: nat, b: nat)
    requires Proper(d) && c < |d.bytes| && b < |d.bytes| && b != c && OnlyByte(main, d, c)
    ensures Keeps(main, d, b)
  {
    AndAll(d.bytes[b]);
    assert NewImage(main, d)[AddressOf(d, b)] == main[AddressOf(d, b)];
  }

  /** Once a byte has been lost, the merged image is the new one if that byte was all there was to do. */
  lemma OneByteMerges(main: Sector, d: Draft, b: nat, n: nat)
    requires Proper(d) && b < n <= |d.bytes| && !Keeps(main, d, b) && OneByte(main, d)
    ensures MergedImage(main, d, n) == NewImage(main, d)
  {
    hide Keeps, OnlyByte, MergedImage, NewImage, AddressOf;
    var c :| 0 <= c < |d.bytes| && OnlyByte(main, d, c);
    if c != b {
      KeptElsewhere(main, d, c, b);
    }
    forall i | 0 <= i < STATUS_OFFSET ensures MergedImage(main, d, n)[i] == NewImage(main, d)[i] {
      OneByteAt(main, d, b, n, i);
    }
  }

  lemma OneByteAt(main: Sector, d: Draft, b: nat, n: nat, i: nat)
    requires Proper(d) && b < n <= |d.bytes| && OnlyByte(main, d, b) && i < STATUS_OFFSET
    ensures MergedImage(main, d, n)[i] == NewImage(main, d)[i]
  {
    AndAll(main[i]);
    assert i != AddressOf(d, b) ==> NewImage(main, d)[i] == main[i];
  }

  /** And just after the first byte was lost, only then. */
  lemma MergedIsOneByte(main: Sector, d: Draft, b: nat)
    requires Proper(d) && b < |d.bytes| && (forall j :: 0 <= j < b ==> Keeps(main, d, j))
    requires MergedImage(main, d, b + 1) == NewImage(main, d)
    ensures OneByte(main, d)
  {
    var merged, image := MergedImage(main, d, b + 1), NewImage(main, d);
    var at := AddressOf(d, b);
    assert merged[at] == main[at] & d.bytes[b] && image[at] == d.bytes[b];
    forall i | 0 <= i < STATUS_OFFSET && i != at ensures image[i] == main[i] {
      var j := IndexAt(d, i);
      assert merged[i] == image[i];
      if j.Some? && j.value < b {
        assert Keeps(main, d, j.value);
        AndSymmetric(main[i], d.bytes[j.value]);
      }
    }
    assert OnlyByte(main, d, b);
  }

  lemma SafeMerge(main: Sector, d: Draft, n: nat)
    requires Proper(d) && n <= |d.bytes| && (KeepsBits(main, d) || OneByte(main, d))
    ensures MergedImage(main, d, n) in {Image(main), NewImage(main, d)}
  {
    hide MergedImage, NewImage, OneByte, Keeps, Proper;
    MergedKeeps(main, d, n);
    if !KeepsBits(main, d) {
      var b := FirstLost(main, d);
      if b < n {
        OneByteMerges(main, d, b, n);
      }
    }
  }

  /** From an erased status, an erase-and-copy update ends in the old image or the new one, wherever it and
      however often its recovery are interrupted, exactly when what it writes clears no bit of what is stored, or
      changes nothing but one byte. */
  lemma ErasedUpdateAtomic(f: Memory, build: seq<Op>, d: Draft)
    requires Status(f) == MAIN_SECTOR_ERASED && Blank(f.copy, 0, 4 * RESTORE_WORDS)
    requires DraftBuild(build, f.main, d) && Builds(f, build, NewImage(f.main, d))
    ensures (forall k, crashes :: OldOrNew(f, UpdateOps(f, build), d, k, crashes)) <==> KeepsBits(f.main, d) || OneByte(f.main, d)
  {
    hide NewImage, Outcome, MergedImage, OneByte, BuildOp, Keeps, Builds, UpdateOps;
    if KeepsBits(f.main, d) || OneByte(f.main, d) {
      forall k: nat, crashes ensures OldOrNew(f, UpdateOps(f, build), d, k, crashes) {
        ErasedOutcome(f, build, d, k, crashes);
        SafeMerge(f.main, d, BytesDone(d, k));
      }
    } else {
      var b := FirstLost(f.main, d);
      ErasedOutcome(f, build, d, b + 2, []);
      MergedKeeps(f.main, d, b + 1);
      if MergedImage(f.main, d, b + 1) == NewImage(f.main, d) {
        MergedIsOneByte(f.main, d, b);
      }
      assert !OldOrNew(f, UpdateOps(f, build), d, b + 2, []);
    }
  }

  // ---- Coordinate records ----

  /** A coordinate record and the padding after it. */
  function CoordDraft(addr: nat, data: CoordData): (d: Draft)
    requires Slot(addr)
    ensures Proper(d)
  {
    Draft(addr, 0, 0, data + [Checksum(data)], addr + COORD_STRIDE)
  }

  lemma CoordDraftBuild(main: Sector, addr: nat, data: CoordData)
    requires Slot(addr)
    ensures DraftBuild(CoordBuild(main, addr, data), main, CoordDraft(addr, data))
  {
    hide Checksum, CoordBuild, BuildOp, CoordDraft;
    var d, build := CoordDraft(addr, data), CoordBuild(main, addr, data);
    CoordBuildLength(main, addr, data);
    forall k | 0 <= k < |build| ensures BuildOp(build[k], main, d, k) {
      if k <= |d.bytes| {
        CoordByteAt(main, addr, data, k);
      } else {
        CoordWordAt(main, addr, data, k);
      }
    }
  }

  lemma CoordByteAt(main: Sector, addr: nat, data: CoordData, k: nat)
    requires Slot(addr) && k <= |CoordDraft(addr, data).bytes| < |CoordBuild(main, addr, data)|
    ensures BuildOp(CoordBuild(main, addr, data)[k], main, CoordDraft(addr, data), k)
  {
    hide Checksum, CopyOps;
  }

  lemma CoordWordAt(main: Sector, addr: nat, data: CoordData, k: nat)
    requires Slot(addr) && |CoordDraft(addr, data).bytes| < k < |CoordBuild(main, addr, data)|
    ensures BuildOp(CoordBuild(main, addr, data)[k], main, CoordDraft(addr, data), k)
  {
    hide Checksum, RecordOps, CopiesWord;
    var d, build := CoordDraft(addr, data), CoordBuild(main, addr, data);
    var n := 1 + |d.bytes| + Words4(0, addr);
    var w := if k < n then 4 * (k - 1 - |d.bytes|) else addr + COORD_STRIDE + 4 * (k - n);
    assert build[k] == ProgramCopy(w, main[w..w + 4]);
    WordCopied(main, d, w);
  }

  lemma WordCopied(main: Sector, d: Draft, w: nat)
    requires w + 4 <= STATUS_OFFSET && (w + 4 <= d.start || d.end <= w)
    ensures CopiesWord(ProgramCopy(w, main[w..w + 4]), main, d, w)
  {
  }

  lemma CoordNewImage(main: Sector, addr: nat, data: CoordData)
    requires Slot(addr)
    ensures NewImage(main, CoordDraft(addr, data)) == CoordImage(main, addr, data)
  {
    hide Checksum;
  }

  /** An update of a coordinate record that needs an erase, with both sectors freshly erased or written in place
      since. */
  lemma CoordErasedAtomic(f: Memory, select: nat, data: CoordData)
    requires Selects(select) && Status(f) == MAIN_SECTOR_ERASED && Blank(f.copy, 0, 4 * RESTORE_WORDS) && !InPlace(f, select, data)
    ensures var d := CoordDraft(CoordAddr(select), data);
      (forall k, crashes :: OldOrNew(f, WriteCoordOps(f, select, data), d, k, crashes)) <==> KeepsBits(f.main, d) || OneByte(f.main, d)
    ensures NewImage(f.main, CoordDraft(CoordAddr(select), data)) == CoordImage(f.main, CoordAddr(select), data)
  {
    hide CoordBuild, CoordImage, NewImage, DraftBuild, OldOrNew, KeepsBits, OneByte, Builds, UpdateOps, LooksProgrammable;
    var addr := CoordAddr(select);
    assert WriteCoordOps(f, select, data) == UpdateOps(f, CoordBuild(f.main, addr, data));
    CoordDraftBuild(f.main, addr, data);
    CoordNewImage(f.main, addr, data);
    CoordBuilt(f, addr, data);
    ErasedUpdateAtomic(f, CoordBuild(f.main, addr, data), CoordDraft(addr, data));
  }

  /** One step more, from 1 to 2, interrupted once the record is in the copy: the record is lost. */
  lemma CoordErasedLoses(f: Memory, select: nat)
    requires Selects(select) && Status(f) == MAIN_SECTOR_ERASED && Blank(f.copy, 0, 4 * RESTORE_WORDS)
    requires StoredCoord(f.main, select) == seq(COORD_SIZE - 1, _ => 0 as Byte) + [1]
    ensures var data := seq(COORD_SIZE - 1, _ => 0 as Byte) + [2];
      !OldOrNew(f, WriteCoordOps(f, select, data), CoordDraft(CoordAddr(select), data), COORD_SIZE + 2, [])
  {
    hide Checksum, Outcome, CoordBuild, MergedImage, NewImage, DraftBuild, Builds, CoordImage, InPlace;
    var data, addr := seq(COORD_SIZE - 1, _ => 0 as Byte) + [2], CoordAddr(select);
    var d := CoordDraft(addr, data);
    OneToTwo(f, select, data);
    CoordDraftBuild(f.main, addr, data);
    CoordNewImage(f.main, addr, data);
    CoordBuilt(f, addr, data);
    CoordBuildLength(f.main, addr, data);
    ErasedOutcome(f, CoordBuild(f.main, addr, data), d, COORD_SIZE + 2, []);
    LostByte(f.main, d, COORD_SIZE - 1, COORD_SIZE + 1);
  }

  lemma CoordBuildLength(main: Sector, addr: nat, data: CoordData)
    requires Slot(addr)
    ensures |CoordBuild(main, addr, data)| > COORD_SIZE + 2 && |CoordDraft(addr, data).bytes| == COORD_SIZE + 1
    ensures Proper(CoordDraft(addr, data))
  {
    hide Checksum;
  }

  /** A byte that neither keeps what is stored nor can be programmed over it spoils both images. */
  lemma LostByte(main: Sector, d: Draft, b: nat, n: nat)
    requires Proper(d) && b < n <= |d.bytes| && !Keeps(main, d, b) && !Fits(main[AddressOf(d, b)], d.bytes[b])
    ensures MergedImage(main, d, n) !in {Image(main), NewImage(main, d)}
  {
    var at := AddressOf(d, b);
    AndSymmetric(main[at], d.bytes[b]);
    assert MergedImage(main, d, n)[at] == main[at] & d.bytes[b];
    assert Image(main)[at] == main[at] && NewImage(main, d)[at] == d.bytes[b];
  }

  lemma OneToTwo(f: Memory, select: nat, data: CoordData)
    requires Selects(select) && data == seq(COORD_SIZE - 1, _ => 0 as Byte) + [2]
    requires StoredCoord(f.main, select) == seq(COORD_SIZE - 1, _ => 0 as Byte) + [1]
    ensures !InPlace(f, select, data)
    ensures var d := CoordDraft(CoordAddr(select), data);
      !Keeps(f.main, d, COORD_SIZE - 1) && !Fits(f.main[AddressOf(d, COORD_SIZE - 1)], d.bytes[COORD_SIZE - 1])
  {
    hide Checksum;
    var stored, last := StoredCoord(f.main, select), COORD_SIZE - 1;
    assert f.main[CoordAddr(select) + last] == stored[last] == 1 && data[last] == 2;
    assert !Fits(stored[last], data[last]);
  }

  // ---- The global settings ----

  /** The version byte, three bytes left erased, the settings with their checksum, and the space after them. */
  function GlobalDraft(settings: seq<Byte>): (d: Draft)
    requires GLOBAL_OFFSET + |settings| < PARAMETERS_OFFSET
    ensures Proper(d)
  {
    Draft(0, 1, GLOBAL_OFFSET - 1, [SETTINGS_VERSION] + settings + [Checksum(settings)], PARAMETERS_OFFSET)
  }

  lemma GlobalDraftBuild(main: Sector, settings: seq<Byte>)
    requires GLOBAL_OFFSET + |settings| < PARAMETERS_OFFSET
    ensures DraftBuild(GlobalBuild(main, settings), main, GlobalDraft(settings))
  {
    hide Checksum;
    var d, build := GlobalDraft(settings), GlobalBuild(main, settings);
    forall k | 0 <= k < |build| ensures BuildOp(build[k], main, d, k) {
      if |d.bytes| < k {
        assert CopiesWord(build[k], main, d, PARAMETERS_OFFSET + 4 * (k - 1 - |d.bytes|));
      }
    }
  }

  lemma GlobalNewImage(main: Sector, settings: seq<Byte>)
    requires GLOBAL_OFFSET + |settings| < PARAMETERS_OFFSET
    ensures NewImage(main, GlobalDraft(settings)) == GlobalImage(main, settings)
  {
    hide Checksum;
    var a, b := NewImage(main, GlobalDraft(settings)), GlobalImage(main, settings);
    forall i | 0 <= i < STATUS_OFFSET ensures a[i] == b[i] {
    }
  }

  /** An update of the settings that takes the erasing branch. */
  lemma GlobalErasedAtomic(f: Memory, settings: seq<Byte>)
    requires GLOBAL_OFFSET + |settings| < PARAMETERS_OFFSET && !LooksProgrammable(f.main[..|settings|], settings)
    requires Status(f) == MAIN_SECTOR_ERASED && Blank(f.copy, 0, 4 * RESTORE_WORDS)
    ensures var d := GlobalDraft(settings);
      (forall k, crashes :: OldOrNew(f, WriteGlobalOps(f, settings), d, k, crashes)) <==> KeepsBits(f.main, d) || OneByte(f.main, d)
    ensures NewImage(f.main, GlobalDraft(settings)) == GlobalImage(f.main, settings)
  {
    hide GlobalBuild, GlobalImage, NewImage, DraftBuild, OldOrNew, KeepsBits, OneByte, Builds, UpdateOps, LooksProgrammable;
    assert WriteGlobalOps(f, settings) == UpdateOps(f, GlobalBuild(f.main, settings));
    GlobalDraftBuild(f.main, settings);
    GlobalNewImage(f.main, settings);
    GlobalBuilt(f, settings);
    ErasedUpdateAtomic(f, GlobalBuild(f.main, settings), GlobalDraft(settings));
  }

  /** A first byte changed from 1 to 2, over settings of the present version: interrupted after it has been copied,
      the settings are lost. */
  lemma GlobalErasedLoses(f: Memory, settings: seq<Byte>)
    requires 0 < |settings| && GLOBAL_OFFSET + |settings| < PARAMETERS_OFFSET
    requires Status(f) == MAIN_SECTOR_ERASED && Blank(f.copy, 0, 4 * RESTORE_WORDS)
    requires f.main[0] == SETTINGS_VERSION && f.main[GLOBAL_OFFSET] == 1 && settings[0] == 2
    ensures !OldOrNew(f, WriteGlobalOps(f, settings), GlobalDraft(settings), 3, [])
  {
    hide Checksum, Outcome, GlobalBuild, MergedImage, NewImage, DraftBuild, Builds, GlobalImage, UpdateOps;
    var d := GlobalDraft(settings);
    assert !Fits(f.main[..|settings|][0], settings[0]);
    GlobalDraftBuild(f.main, settings);
    GlobalNewImage(f.main, settings);
    GlobalBuilt(f, settings);
    GlobalBuildLength(f.main, settings);
    ErasedOutcome(f, GlobalBuild(f.main, settings), d, 3, []);
    LostByte(f.main, d, 1, 2);
  }

  lemma GlobalBuildLength(main: Sector, settings: seq<Byte>)
    requires GLOBAL_OFFSET + |settings| < PARAMETERS_OFFSET
    ensures |GlobalBuild(main, settings)| >= 3
  {
    hide Checksum;
  }
}
