/** The two flash sectors of the settings store as sequences of atomic flash operations, and what a
    power failure between any two of them can do. Programming only clears bits; an erase sets a whole
    sector. */
module FlashOps {

  type Byte = bv8

  const SECTOR_SIZE: nat := 0x2_0000
  const STATUS_OFFSET: nat := 1020 // EFLASH_ERASE_AND_RESTORE_OFFSET
  const RESTORE_WORDS: nat := 1020 // the restore loop counts words up to the same number

  type Sector = s: seq<Byte> | |s| == SECTOR_SIZE witness seq(SECTOR_SIZE, _ => 0xFF as Byte)

  datatype Memory = Memory(main: Sector, copy: Sector)

  // Status words, least significant byte first.
  const MAIN_SECTOR_COPIED: seq<Byte> := [0xFF, 0, 0, 0]
  const MAIN_SECTOR_ERASED: seq<Byte> := [0xFF, 0xFF, 0xFF, 0xFF]
  const MAIN_SECTOR_RESTORED: seq<Byte> := [0xFF, 0xFF, 0xFF, 0]
  const COPY_SECTOR_CLEARED: seq<Byte> := [0xFF, 0xFF, 0, 0]

  function Status(f: Memory): seq<Byte> {
    f.main[STATUS_OFFSET..STATUS_OFFSET + 4]
  }

  datatype Op =
    | ProgramMain(addr: nat, bytes: seq<Byte>)
    | ProgramCopy(addr: nat, bytes: seq<Byte>)
    | EraseMain
    | EraseCopy

  function Program(s: Sector, addr: nat, bytes: seq<Byte>): (r: Sector)
    ensures forall i :: 0 <= i < SECTOR_SIZE ==> r[i] == if addr <= i < addr + |bytes| then s[i] & bytes[i - addr] else s[i]
  {
    seq(SECTOR_SIZE, i requires 0 <= i < SECTOR_SIZE => if addr <= i < addr + |bytes| then s[i] & bytes[i - addr] else s[i])
  }

  function Erased(): (r: Sector)
    ensures forall i :: 0 <= i < SECTOR_SIZE ==> r[i] == 0xFF
  {
    seq(SECTOR_SIZE, i => 0xFF as Byte)
  }

  function Apply(f: Memory, op: Op): Memory {
    match op
    case ProgramMain(addr, bytes) => f.(main := Program(f.main, addr, bytes))
    case ProgramCopy(addr, bytes) => f.(copy := Program(f.copy, addr, bytes))
    case EraseMain => f.(main := Erased())
    case EraseCopy => f.(copy := Erased())
  }

  function ApplyAll(f: Memory, ops: seq<Op>): Memory {
    if ops == [] then f else Apply(ApplyAll(f, ops[..|ops| - 1]), ops[|ops| - 1])
  }

  /** Every word of the copy sector's first RESTORE_WORDS words, programmed into the main sector. */
  function RestoreOps(copy: Sector): (ops: seq<Op>)
    ensures |ops| == RESTORE_WORDS
    ensures forall i :: 0 <= i < RESTORE_WORDS ==> ops[i] == ProgramMain(4 * i, copy[4 * i..4 * i + 4])
  {
    seq(RESTORE_WORDS, i requires 0 <= i < RESTORE_WORDS => ProgramMain(4 * i, copy[4 * i..4 * i + 4]))
  }

  const FinishOps: seq<Op> := [EraseCopy, ProgramMain(STATUS_OFFSET, COPY_SECTOR_CLEARED)]

  /** What recovery does, as the status word directs. */
  function RecoveryOps(f: Memory): seq<Op> {
    if Status(f) == MAIN_SECTOR_COPIED then [EraseMain] + RestoreOps(f.copy) + FinishOps
    else if Status(f) == MAIN_SECTOR_ERASED then RestoreOps(f.copy) + FinishOps
    else if Status(f) == MAIN_SECTOR_RESTORED then FinishOps
    else if Status(f) == COPY_SECTOR_CLEARED then []
    else [EraseMain, EraseCopy]
  }

  /** An erase-and-copy update: build the new image in the copy sector, mark it, and recover from it. */
  function UpdateOps(f: Memory, build: seq<Op>): seq<Op> {
    var marked := build + [ProgramMain(STATUS_OFFSET, MAIN_SECTOR_COPIED)];
    marked + RecoveryOps(ApplyAll(f, marked))
  }

  /** What has been done of a sequence of operations when power fails after k of them. */
  function Cut(ops: seq<Op>, k: nat): seq<Op> {
    if k < |ops| then ops[..k] else ops
  }

  /** Power fails after crashes[i] operations of the i-th recovery. */
  function AfterCrashes(f: Memory, crashes: seq<nat>): Memory
    decreases |crashes|
  {
    if crashes == [] then f else AfterCrashes(ApplyAll(f, Cut(RecoveryOps(f), crashes[0])), crashes[1..])
  }

  function Recovered(f: Memory): Memory {
    ApplyAll(f, RecoveryOps(f))
  }

  // ---- The journal ----

  /** The part of a sector the journal protects. */
  function Image(s: Sector): seq<Byte> {
    s[..STATUS_OFFSET]
  }

  /** The copy sector holds image `newImage`, and nothing that would disturb what follows it. */
  ghost predicate CopyHolds(f: Memory, newImage: seq<Byte>) {
    Image(f.copy) == newImage && forall i :: STATUS_OFFSET <= i < 4 * RESTORE_WORDS ==> f.copy[i] == 0xFF
  }

  /** Restoring from the copy, now or after having started to, leaves image `newImage`. */
  ghost predicate Merges(f: Memory, newImage: seq<Byte>)
    requires |newImage| == STATUS_OFFSET
  {
    && (forall i :: 0 <= i < STATUS_OFFSET ==> f.main[i] & f.copy[i] == newImage[i])
    && forall i :: STATUS_OFFSET <= i < 4 * RESTORE_WORDS ==> f.copy[i] == 0xFF
  }

  /** The states an update to `newImage` can be found in once its copy has been marked. */
  ghost predicate Journal(f: Memory, newImage: seq<Byte>)
    requires |newImage| == STATUS_OFFSET
  {
    || (Status(f) == MAIN_SECTOR_COPIED && CopyHolds(f, newImage))
    || (Status(f) == MAIN_SECTOR_ERASED && Merges(f, newImage))
    || (Status(f) == COPY_SECTOR_CLEARED && Image(f.main) == newImage)
  }

  ghost predicate Done(f: Memory, newImage: seq<Byte>) {
    Status(f) == COPY_SECTOR_CLEARED && Image(f.main) == newImage
  }

  lemma {:induction false} ApplyAllSplit(f: Memory, a: seq<Op>, b: seq<Op>)
    ensures ApplyAll(f, a + b) == ApplyAll(ApplyAll(f, a), b)
  {
    if b == [] {
      assert a + b == a;
    } else {
      ApplyAllSplit(f, a, b[..|b| - 1]);
      assert (a + b)[..|a + b| - 1] == a + b[..|b| - 1];
    }
  }

  /** The first k words restored: each byte programmed with the copy's. */
  lemma {:induction false} RestorePrefix(f: Memory, k: nat)
    requires k <= RESTORE_WORDS
    ensures var r := ApplyAll(f, RestoreOps(f.copy)[..k]);
      r.copy == f.copy && forall i :: 0 <= i < SECTOR_SIZE ==> r.main[i] == if i < 4 * k then f.main[i] & f.copy[i] else f.main[i]
  {
    if k > 0 {
      RestorePrefix(f, k - 1);
      assert RestoreOps(f.copy)[..k][..k - 1] == RestoreOps(f.copy)[..k - 1];
    }
  }

  lemma Words(f: Memory)
    ensures Status(f) == MAIN_SECTOR_COPIED <==> f.main[1020] == 0xFF && f.main[1021] == 0 && f.main[1022] == 0 && f.main[1023] == 0
    ensures Status(f) == MAIN_SECTOR_ERASED <==> f.main[1020] == 0xFF && f.main[1021] == 0xFF && f.main[1022] == 0xFF && f.main[1023] == 0xFF
    ensures Status(f) == COPY_SECTOR_CLEARED <==> f.main[1020] == 0xFF && f.main[1021] == 0xFF && f.main[1022] == 0 && f.main[1023] == 0
  {
    assert Status(f)[0] == f.main[1020] && Status(f)[1] == f.main[1021] && Status(f)[2] == f.main[1022] && Status(f)[3] == f.main[1023];
  }

  /** Restoring k words keeps what a restoration leads to and the status word; all of them lead there. */
  lemma RestoreKeeps(f: Memory, newImage: seq<Byte>, k: nat)
    requires |newImage| == STATUS_OFFSET && k <= RESTORE_WORDS
    requires Status(f) == MAIN_SECTOR_ERASED && Merges(f, newImage)
    ensures var r := ApplyAll(f, RestoreOps(f.copy)[..k]);
      && Status(r) == MAIN_SECTOR_ERASED && Merges(r, newImage)
      && (k == RESTORE_WORDS ==> Image(r.main) == newImage)
  {
    hide ApplyAll;
    RestorePrefix(f, k);
    var r := ApplyAll(f, RestoreOps(f.copy)[..k]);
    Words(f);
    Words(r);
    forall i | 0 <= i < STATUS_OFFSET ensures r.main[i] & r.copy[i] == newImage[i] {
      AndTwice(f.main[i], f.copy[i]);
    }
    if k == RESTORE_WORDS {
      assert forall i :: 0 <= i < STATUS_OFFSET ==> Image(r.main)[i] == newImage[i];
    }
  }

  lemma AndTwice(a: Byte, b: Byte)
    ensures (a & b) & b == a & b
  {
  }

  /** Erasing the copy once everything is restored. */
  lemma EraseKeeps(f: Memory, newImage: seq<Byte>)
    requires |newImage| == STATUS_OFFSET && Status(f) == MAIN_SECTOR_ERASED && Image(f.main) == newImage
    ensures Journal(Apply(f, EraseCopy), newImage)
  {
    forall i | 0 <= i < STATUS_OFFSET ensures f.main[i] & 0xFF == newImage[i] {
      AndAll(f.main[i]);
      assert f.main[i] == Image(f.main)[i];
    }
  }

  /** And marking it done. */
  lemma MarkDone(f: Memory, newImage: seq<Byte>)
    requires |newImage| == STATUS_OFFSET && Status(f) == MAIN_SECTOR_ERASED && Image(f.main) == newImage
    ensures Done(Apply(f, ProgramMain(STATUS_OFFSET, COPY_SECTOR_CLEARED)), newImage)
  {
    hide Program;
    var r := Apply(f, ProgramMain(STATUS_OFFSET, COPY_SECTOR_CLEARED));
    Words(f);
    Words(r);
    assert Image(r.main) == Image(f.main);
  }

  /** The last two operations of a recovery. */
  lemma FinishKeeps(f: Memory, newImage: seq<Byte>, k: nat)
    requires |newImage| == STATUS_OFFSET && k <= 2
    requires Status(f) == MAIN_SECTOR_ERASED && Image(f.main) == newImage
    requires k == 0 ==> Journal(f, newImage)
    ensures Journal(ApplyAll(f, FinishOps[..k]), newImage)
    ensures k == 2 ==> Done(ApplyAll(f, FinishOps[..k]), newImage)
  {
    hide Merges, CopyHolds, Program, ApplyAll, Journal, Erased;
    var e := Apply(f, EraseCopy);
    EraseKeeps(f, newImage);
    MarkDone(e, newImage);
    DoneIsJournal(Apply(e, FinishOps[1]), newImage);
    assert FinishOps[..0] == [] && [] + [EraseCopy] == FinishOps[..1] && FinishOps[..1] + [FinishOps[1]] == FinishOps[..2];
    ApplyLast(f, [], EraseCopy);
    ApplyLast(f, FinishOps[..1], FinishOps[1]);
  }

  lemma DoneIsJournal(f: Memory, newImage: seq<Byte>)
    requires |newImage| == STATUS_OFFSET
    ensures Done(f, newImage) ==> Journal(f, newImage)
  {
  }

  lemma ApplyLast(f: Memory, ops: seq<Op>, op: Op)
    ensures ApplyAll(f, []) == f && ApplyAll(f, ops + [op]) == Apply(ApplyAll(f, ops), op)
  {
    assert (ops + [op])[..|ops|] == ops;
  }

  /** Recovery from a sector already erased: every prefix is a journal state, and the whole is done. */
  lemma ErasedRecovery(f: Memory, newImage: seq<Byte>, k: nat)
    requires |newImage| == STATUS_OFFSET && Journal(f, newImage) && Status(f) == MAIN_SECTOR_ERASED
    requires k <= RESTORE_WORDS + 2
    ensures var r := ApplyAll(f, (RestoreOps(f.copy) + FinishOps)[..k]);
      Journal(r, newImage) && (k == RESTORE_WORDS + 2 ==> Done(r, newImage))
  {
    hide ApplyAll, Merges, CopyHolds;
    var ops := RestoreOps(f.copy) + FinishOps;
    assert RestoreOps(f.copy)[..RESTORE_WORDS] == RestoreOps(f.copy);
    Words(f);
    RestoreKeeps(f, newImage, if k < RESTORE_WORDS then k else RESTORE_WORDS);
    if k <= RESTORE_WORDS {
      assert ops[..k] == RestoreOps(f.copy)[..k];
    } else {
      assert ops[..k] == RestoreOps(f.copy) + FinishOps[..k - RESTORE_WORDS];
      ApplyAllSplit(f, RestoreOps(f.copy), FinishOps[..k - RESTORE_WORDS]);
      FinishKeeps(ApplyAll(f, RestoreOps(f.copy)), newImage, k - RESTORE_WORDS);
    }
  }

  /** A recovery cut off anywhere leaves a journal state; a complete one also clears the status. */
  lemma RecoveryPrefix(f: Memory, newImage: seq<Byte>, k: nat)
    requires |newImage| == STATUS_OFFSET && Journal(f, newImage) && k <= |RecoveryOps(f)|
    ensures Journal(ApplyAll(f, RecoveryOps(f)[..k]), newImage)
    ensures k == |RecoveryOps(f)| ==> Done(ApplyAll(f, RecoveryOps(f)[..k]), newImage)
  {
    hide ApplyAll, RecoveryOps, CopyHolds, Merges, Status;
    StatusWords();
    RecoveryOf(f);
    if Status(f) == MAIN_SECTOR_COPIED && k > 0 {
      CopiedRecovery(f, newImage, k);
    } else if Status(f) == MAIN_SECTOR_ERASED {
      ErasedRecovery(f, newImage, k);
    } else {
      ApplyLast(f, [], EraseMain);
    }
  }

  lemma StatusWords()
    ensures MAIN_SECTOR_COPIED != MAIN_SECTOR_ERASED && MAIN_SECTOR_COPIED != COPY_SECTOR_CLEARED && MAIN_SECTOR_ERASED != COPY_SECTOR_CLEARED
  {
    assert MAIN_SECTOR_COPIED[1] != MAIN_SECTOR_ERASED[1] && MAIN_SECTOR_COPIED[1] != COPY_SECTOR_CLEARED[1];
    assert MAIN_SECTOR_ERASED[2] != COPY_SECTOR_CLEARED[2];
  }

  lemma RecoveryOf(f: Memory)
    ensures Status(f) == MAIN_SECTOR_COPIED ==> RecoveryOps(f) == [EraseMain] + (RestoreOps(f.copy) + FinishOps)
    ensures Status(f) == MAIN_SECTOR_ERASED ==> RecoveryOps(f) == RestoreOps(f.copy) + FinishOps
    ensures Status(f) == COPY_SECTOR_CLEARED ==> RecoveryOps(f) == []
  {
    Words(f);
    assert [EraseMain] + RestoreOps(f.copy) + FinishOps == [EraseMain] + (RestoreOps(f.copy) + FinishOps);
  }

  /** Recovery from a marked copy: the main sector is erased first. */
  lemma CopiedRecovery(f: Memory, newImage: seq<Byte>, k: nat)
    requires |newImage| == STATUS_OFFSET && CopyHolds(f, newImage) && 0 < k <= RESTORE_WORDS + 3
    ensures var r := ApplyAll(f, ([EraseMain] + (RestoreOps(f.copy) + FinishOps))[..k]);
      Journal(r, newImage) && (k == RESTORE_WORDS + 3 ==> Done(r, newImage))
  {
    hide ApplyAll, CopyHolds, Merges;
    var e, rest := Apply(f, EraseMain), RestoreOps(f.copy) + FinishOps;
    Words(e);
    assert ([EraseMain] + rest)[..k] == [EraseMain] + rest[..k - 1];
    ApplyAllSplit(f, [EraseMain], rest[..k - 1]);
    assert [] + [EraseMain] == [EraseMain];
    ApplyLast(f, [], EraseMain);
    assert CopyHolds(e, newImage) by { CopyHoldsAs(f, e, newImage); }
    ErasedMerges(e, newImage);
    ErasedRecovery(e, newImage, k - 1);
  }

  lemma CopyHoldsAs(f: Memory, g: Memory, newImage: seq<Byte>)
    requires f.copy == g.copy && CopyHolds(f, newImage)
    ensures CopyHolds(g, newImage)
  {
  }

  /** Recovery from the status of a restored main sector keeps the image and clears the journal; from a status that is
      none of the four it erases both sectors. */
  lemma OtherRecovery(f: Memory)
    requires Status(f) !in {MAIN_SECTOR_COPIED, MAIN_SECTOR_ERASED, COPY_SECTOR_CLEARED}
    ensures var r := ApplyAll(f, RecoveryOps(f));
      && r.copy == Erased()
      && if Status(f) == MAIN_SECTOR_RESTORED then Status(r) == COPY_SECTOR_CLEARED && Image(r.main) == Image(f.main) else r.main == Erased()
  {
    hide ApplyAll, Program;
    ApplyLast(f, [], EraseMain);
    ApplyLast(f, [], EraseCopy);
    ApplyLast(f, [EraseMain], EraseCopy);
    ApplyLast(f, [EraseCopy], FinishOps[1]);
    assert [] + [EraseMain] == [EraseMain] && [] + [EraseCopy] == [EraseCopy];
    assert [EraseMain] + [EraseCopy] == [EraseMain, EraseCopy] && [EraseCopy] + [FinishOps[1]] == FinishOps;
    var r := ApplyAll(f, RecoveryOps(f));
    if Status(f) == MAIN_SECTOR_RESTORED {
      assert Status(f)[0] == f.main[1020] && Status(f)[1] == f.main[1021] && Status(f)[2] == f.main[1022] && Status(f)[3] == f.main[1023];
      Words(r);
      assert Image(r.main) == Image(f.main);
    }
  }

  lemma ErasedMerges(e: Memory, newImage: seq<Byte>)
    requires |newImage| == STATUS_OFFSET && e.main == Erased() && CopyHolds(e, newImage)
    ensures Merges(e, newImage)
  {
    forall i | 0 <= i < STATUS_OFFSET ensures e.main[i] & e.copy[i] == newImage[i] {
      assert e.copy[i] == Image(e.copy)[i];
      AndAll(newImage[i]);
    }
  }

  lemma AndAll(b: Byte)
    ensures 0xFF & b == b && b & 0xFF == b && b & b == b
  {
  }

  lemma {:induction false} CrashesKeepJournal(f: Memory, newImage: seq<Byte>, crashes: seq<nat>)
    requires |newImage| == STATUS_OFFSET && Journal(f, newImage)
    ensures Journal(AfterCrashes(f, crashes), newImage)
    decreases |crashes|
  {
    if crashes != [] {
      var ops := RecoveryOps(f);
      var k := if crashes[0] < |ops| then crashes[0] else |ops|;
      assert ops[..|ops|] == ops;
      RecoveryPrefix(f, newImage, k);
      CrashesKeepJournal(ApplyAll(f, ops[..k]), newImage, crashes[1..]);
    }
  }

  ghost predicate OnCopy(ops: seq<Op>) {
    forall i :: 0 <= i < |ops| ==> ops[i].ProgramCopy? || ops[i].EraseCopy?
  }

  lemma {:induction false} OnCopyKeepsMain(f: Memory, ops: seq<Op>)
    requires OnCopy(ops)
    ensures ApplyAll(f, ops).main == f.main
  {
    if ops != [] {
      OnCopyKeepsMain(f, ops[..|ops| - 1]);
    }
  }

  /** Operations on the copy sector that leave it holding the new image. */
  ghost predicate Builds(f: Memory, build: seq<Op>, newImage: seq<Byte>) {
    OnCopy(build) && |newImage| == STATUS_OFFSET && CopyHolds(ApplyAll(f, build), newImage)
  }

  /** An update cut off before the mark has not touched the main sector; after it, it is in the journal. */
  lemma UpdatePrefix(f: Memory, build: seq<Op>, newImage: seq<Byte>, k: nat)
    requires Status(f) in {COPY_SECTOR_CLEARED, MAIN_SECTOR_ERASED} && Builds(f, build, newImage) && k <= |UpdateOps(f, build)|
    ensures k <= |build| ==> ApplyAll(f, UpdateOps(f, build)[..k]).main == f.main
    ensures k > |build| ==> Journal(ApplyAll(f, UpdateOps(f, build)[..k]), newImage)
    ensures k == |UpdateOps(f, build)| ==> Done(ApplyAll(f, UpdateOps(f, build)[..k]), newImage)
  {
    hide ApplyAll, RecoveryOps, CopyHolds;
    var n := |build|;
    if k <= n {
      assert UpdateOps(f, build)[..k] == build[..k];
      OnCopyKeepsMain(f, build[..k]);
    } else {
      var marked := build + [ProgramMain(STATUS_OFFSET, MAIN_SECTOR_COPIED)];
      var g := ApplyAll(f, marked);
      Marked(f, build, newImage);
      var rec := RecoveryOps(g);
      assert UpdateOps(f, build)[..k] == marked + rec[..k - n - 1];
      ApplyAllSplit(f, marked, rec[..k - n - 1]);
      RecoveryPrefix(g, newImage, k - n - 1);
    }
  }

  /** The status word turns from cleared, or erased, to copied by clearing bits only. */
  lemma Marked(f: Memory, build: seq<Op>, newImage: seq<Byte>)
    requires Status(f) in {COPY_SECTOR_CLEARED, MAIN_SECTOR_ERASED} && Builds(f, build, newImage)
    ensures var g := ApplyAll(f, build + [ProgramMain(STATUS_OFFSET, MAIN_SECTOR_COPIED)]);
      Status(g) == MAIN_SECTOR_COPIED && Image(g.main) == Image(f.main) && CopyHolds(g, newImage)
  {
    var mark := ProgramMain(STATUS_OFFSET, MAIN_SECTOR_COPIED);
    assert (build + [mark])[..|build|] == build;
    OnCopyKeepsMain(f, build);
    var g := ApplyAll(f, build + [mark]);
    Words(f);
    Words(g);
    assert Image(g.main) == Image(f.main);
  }

  lemma {:induction false} ClearedStays(f: Memory, crashes: seq<nat>)
    requires Status(f) == COPY_SECTOR_CLEARED
    ensures AfterCrashes(f, crashes) == f == Recovered(f)
    decreases |crashes|
  {
    Words(f);
    if crashes != [] {
      assert RecoveryOps(f)[..0] == [] == RecoveryOps(f);
      ClearedStays(f, crashes[1..]);
    }
  }

  /** Atomicity: an update from a cleared journal, cut off after k operations and then interrupted in
      recovery any number of times, ends after one complete recovery with the old image if the copy
      had not been marked, and with the new one, whole, if it had. Further recoveries do nothing. */
  lemma UpdateAtomic(f: Memory, build: seq<Op>, newImage: seq<Byte>, k: nat, crashes: seq<nat>)
    requires Status(f) == COPY_SECTOR_CLEARED && Builds(f, build, newImage)
    ensures var r := Recovered(AfterCrashes(ApplyAll(f, Cut(UpdateOps(f, build), k)), crashes));
      && Image(r.main) == (if k <= |build| then Image(f.main) else newImage)
      && Status(r) == COPY_SECTOR_CLEARED && Recovered(r) == r
  {
    hide ApplyAll, RecoveryOps, Journal, CopyHolds, Merges;
    var ops := UpdateOps(f, build);
    var n := if k < |ops| then k else |ops|;
    assert ops[..|ops|] == ops;
    var g := ApplyAll(f, ops[..n]);
    UpdatePrefix(f, build, newImage, n);
    if n <= |build| {
      ClearedStaysAs(f, g, crashes);
    } else {
      JournalRecovers(g, newImage, crashes);
    }
  }

  /** From any journal state, however often recovery is interrupted, one complete recovery leaves the image. */
  lemma JournalRecovers(f: Memory, newImage: seq<Byte>, crashes: seq<nat>)
    requires |newImage| == STATUS_OFFSET && Journal(f, newImage)
    ensures var r := Recovered(AfterCrashes(f, crashes)); Done(r, newImage) && Recovered(r) == r
  {
    hide ApplyAll, RecoveryOps, Journal;
    CrashesKeepJournal(f, newImage, crashes);
    var h := AfterCrashes(f, crashes);
    assert RecoveryOps(h)[..|RecoveryOps(h)|] == RecoveryOps(h);
    RecoveryPrefix(h, newImage, |RecoveryOps(h)|);
    ClearedStays(Recovered(h), []);
  }

  lemma ClearedStaysAs(f: Memory, g: Memory, crashes: seq<nat>)
    requires Status(f) == COPY_SECTOR_CLEARED && g.main == f.main
    ensures AfterCrashes(g, crashes) == g == Recovered(g)
  {
    hide ApplyAll, RecoveryOps;
    ClearedStays(g, crashes);
  }
}
