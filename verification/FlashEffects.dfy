/** What the operations the settings store issues amount to: records that read back, nothing else changed,
    and, where an erase is needed, all or nothing whatever power does. */
module FlashEffects {
  import opened FlashOps
  import opened FlashStore

  // ---- What the writers achieve ----

  lemma ProgramNext(s: Sector, addr: nat, data: seq<Byte>, bytes: seq<Byte>)
    ensures Program(s, addr, []) == s
    ensures Program(Program(s, addr, data), addr + |data|, bytes) == Program(s, addr, data + bytes)
  {
    hide Program;
    var p, q, n := Program(s, addr, data), data + bytes, addr + |data|;
    forall i | 0 <= i < SECTOR_SIZE ensures Program(p, n, bytes)[i] == Program(s, addr, q)[i] {
      if n <= i < n + |bytes| {
        assert q[i - addr] == bytes[i - n];
      } else if addr <= i < n {
        assert q[i - addr] == data[i - addr];
      }
    }
  }

  /** Flash contents once `bytes` have been programmed, in however many operations. */
  function Programmed(f: Memory, bank: Bank, addr: nat, bytes: seq<Byte>): Memory {
    Apply(f, ProgramAt(bank, addr, bytes))
  }

  lemma ProgrammedNext(f: Memory, bank: Bank, addr: nat, data: seq<Byte>, bytes: seq<Byte>)
    ensures Programmed(f, bank, addr, []) == f
    ensures Programmed(Programmed(f, bank, addr, data), bank, addr + |data|, bytes) == Programmed(f, bank, addr, data + bytes)
  {
    hide Program;
    ProgramNext(if bank.InMain? then f.main else f.copy, addr, data, bytes);
  }

  lemma {:induction false} RecordEffect(f: Memory, bank: Bank, addr: nat, data: seq<Byte>, k: nat)
    requires k <= |data|
    ensures ApplyAll(f, RecordOps(bank, addr, data)[..k]) == Programmed(f, bank, addr, data[..k])
  {
    hide Apply, ProgramAt;
    var ops := RecordOps(bank, addr, data);
    if k == 0 {
      ProgrammedNext(f, bank, addr, [], []);
    } else {
      RecordEffect(f, bank, addr, data, k - 1);
      assert ops[..k] == ops[..k - 1] + [ops[k - 1]];
      ApplyLast(f, ops[..k - 1], ops[k - 1]);
      ProgrammedNext(f, bank, addr, data[..k - 1], [data[k - 1]]);
      assert data[..k - 1] + [data[k - 1]] == data[..k];
    }
  }

  lemma PutEffect(f: Memory, bank: Bank, addr: nat, data: seq<Byte>)
    ensures ApplyAll(f, PutOps(bank, addr, data)) == Programmed(f, bank, addr, data + [Checksum(data)])
  {
    hide Apply, ProgramAt, Checksum;
    var ops := RecordOps(bank, addr, data);
    RecordEffect(f, bank, addr, data, |data|);
    assert ops[..|data|] == ops && data[..|data|] == data;
    ApplyLast(f, ops, ProgramAt(bank, addr + |data|, [Checksum(data)]));
    ProgrammedNext(f, bank, addr, data, [Checksum(data)]);
  }

  /** The range of whole words copied. */
  lemma {:induction false} CopyEffect(f: Memory, main: Sector, start: nat, n: nat, k: nat)
    requires start + 4 * n <= STATUS_OFFSET && k <= n
    ensures ApplyAll(f, CopyOps(main, start, n)[..k]) == Programmed(f, InCopy, start, main[start..start + 4 * k])
  {
    hide Apply, Program, ApplyAll, Programmed;
    var ops := CopyOps(main, start, n);
    if k == 0 {
      assert main[start..start] == [] && ops[..0] == [];
      ProgrammedNext(f, InCopy, start, [], []);
      ApplyLast(f, [], EraseCopy);
    } else {
      var i := start + 4 * (k - 1);
      CopyEffect(f, main, start, n, k - 1);
      assert ops[..k] == ops[..k - 1] + [ops[k - 1]];
      ApplyLast(f, ops[..k - 1], ops[k - 1]);
      OneWord(Programmed(f, InCopy, start, main[start..i]), i, main[i..i + 4]);
      assert |main[start..i]| == i - start && start + |main[start..i]| == i;
      ProgrammedNext(f, InCopy, start, main[start..i], main[i..i + 4]);
      JoinSlices(main, start, i, i + 4);
      assert main[start..i] + main[i..i + 4] == main[start..start + 4 * k];
    }
  }

  lemma OneWord(f: Memory, i: nat, word: seq<Byte>)
    ensures Apply(f, ProgramCopy(i, word)) == Programmed(f, InCopy, i, word)
  {
  }

  lemma JoinSlices(s: seq<Byte>, a: nat, b: nat, c: nat)
    requires a <= b <= c <= |s|
    ensures s[a..b] + s[b..c] == s[a..c]
  {
  }

  lemma CopyAllEffect(f: Memory, main: Sector, start: nat, end: nat)
    requires start <= end <= STATUS_OFFSET && (end - start) % 4 == 0
    ensures ApplyAll(f, CopyOps(main, start, Words4(start, end))) == Programmed(f, InCopy, start, main[start..end])
  {
    hide Apply, Program;
    var n := Words4(start, end);
    var ops := CopyOps(main, start, n);
    CopyEffect(f, main, start, n, n);
    assert ops[..n] == ops;
  }

  /** `bytes` written over whatever was there. */
  function Written(s: Sector, addr: nat, bytes: seq<Byte>): (r: Sector)
    ensures forall i :: 0 <= i < SECTOR_SIZE ==> r[i] == if addr <= i < addr + |bytes| then bytes[i - addr] else s[i]
  {
    seq(SECTOR_SIZE, i requires 0 <= i < SECTOR_SIZE => if addr <= i < addr + |bytes| then bytes[i - addr] else s[i])
  }

  predicate Blank(s: Sector, start: nat, end: nat)
    requires end <= SECTOR_SIZE
  {
    forall i :: start <= i < end ==> s[i] == 0xFF
  }

  /** Over erased bytes, programming writes exactly what it is given. */
  lemma ProgramErased(s: Sector, addr: nat, bytes: seq<Byte>)
    requires addr + |bytes| <= SECTOR_SIZE && Blank(s, addr, addr + |bytes|)
    ensures Program(s, addr, bytes) == Written(s, addr, bytes)
  {
    hide Program, Written;
    forall i | 0 <= i < SECTOR_SIZE ensures Program(s, addr, bytes)[i] == Written(s, addr, bytes)[i] {
      if addr <= i < addr + |bytes| {
        AndAll(bytes[i - addr]);
      }
    }
  }

  /** Elsewhere, exactly where the bytes fit. */
  lemma ProgramBack(s: Sector, addr: nat, bytes: seq<Byte>)
    requires addr + |bytes| <= SECTOR_SIZE
    ensures Program(s, addr, bytes)[addr..addr + |bytes|] == bytes <==> AllFit(s[addr..addr + |bytes|], bytes)
  {
    hide Program;
    var stored, after := s[addr..addr + |bytes|], Program(s, addr, bytes)[addr..addr + |bytes|];
    assert forall i :: 0 <= i < |bytes| ==> after[i] == stored[i] & bytes[i];
    if after == bytes {
      assert forall i :: 0 <= i < |bytes| ==> stored[i] & bytes[i] == after[i];
    }
  }

  lemma CoordOnCopy(main: Sector, addr: nat, data: CoordData)
    requires Slot(addr)
    ensures OnCopy(CoordBuild(main, addr, data))
  {
    hide Checksum;
  }

  /** The copy sector a coordinate update builds. */
  lemma CoordBuilt(f: Memory, addr: nat, data: CoordData)
    requires Slot(addr)
    ensures Builds(f, CoordBuild(f.main, addr, data), CoordImage(f.main, addr, data))
  {
    hide Program, Written, PutOps, CopyOps, Checksum, Words4, OnCopy, CopyHolds;
    var a, b := [EraseCopy], PutOps(InCopy, addr, data);
    var c, d := CopyOps(f.main, 0, Words4(0, addr)), CopyOps(f.main, addr + COORD_STRIDE, Words4(addr + COORD_STRIDE, STATUS_OFFSET));
    var f1 := f.(copy := Erased());
    var f2 := f1.(copy := Written(f1.copy, addr, data + [Checksum(data)]));
    var f3 := f2.(copy := Written(f2.copy, 0, f.main[0..addr]));
    var f4 := f3.(copy := Written(f3.copy, addr + COORD_STRIDE, f.main[addr + COORD_STRIDE..STATUS_OFFSET]));
    ProgramErased(f1.copy, addr, data + [Checksum(data)]);
    ProgramErased(f2.copy, 0, f.main[0..addr]);
    ProgramErased(f3.copy, addr + COORD_STRIDE, f.main[addr + COORD_STRIDE..STATUS_OFFSET]);
    assert ApplyAll(f, a) == f1 by { assert a[..0] == []; }
    PutEffect(f1, InCopy, addr, data);
    ApplyAllSplit(f, a, b);
    CopyAllEffect(f2, f.main, 0, addr);
    ApplyAllSplit(f, a + b, c);
    CopyAllEffect(f3, f.main, addr + COORD_STRIDE, STATUS_OFFSET);
    ApplyAllSplit(f, a + b + c, d);
    CoordOnCopy(f.main, addr, data);
    CoordCopyHolds(f, addr, data, f4);
  }

  lemma CoordCopyHolds(f: Memory, addr: nat, data: CoordData, g: Memory)
    requires Slot(addr)
    requires g.copy == Written(Written(Written(Erased(), addr, data + [Checksum(data)]), 0, f.main[0..addr]),
                               addr + COORD_STRIDE, f.main[addr + COORD_STRIDE..STATUS_OFFSET])
    ensures CopyHolds(g, CoordImage(f.main, addr, data))
  {
    hide Written, Checksum;
    var image := CoordImage(f.main, addr, data);
    var record := data + [Checksum(data)];
    forall i | 0 <= i < STATUS_OFFSET ensures g.copy[i] == image[i] {
      if addr <= i < addr + |record| {
        assert image[i] == record[i - addr];
      }
    }
    assert Image(g.copy) == image;
  }

  /** Whether the direct branch is taken. */
  predicate InPlace(f: Memory, select: nat, data: CoordData)
    requires Selects(select)
  {
    LooksProgrammable(StoredCoord(f.main, select), data)
  }

  /** Atomicity of a coordinate update that needs an erase: cut off after any number of operations, with
      recovery itself cut off any number of times, one complete recovery leaves the image the sector had,
      or the new one, whole; which, depends only on whether the copy had been marked. Recovering again
      changes nothing. */
  lemma CoordUpdateAtomic(f: Memory, select: nat, data: CoordData, k: nat, crashes: seq<nat>)
    requires Selects(select) && Status(f) == COPY_SECTOR_CLEARED && !InPlace(f, select, data)
    ensures var r := Recovered(AfterCrashes(ApplyAll(f, Cut(WriteCoordOps(f, select, data), k)), crashes));
      && Image(r.main) == (if k <= |CoordBuild(f.main, CoordAddr(select), data)| then Image(f.main)
                           else CoordImage(f.main, CoordAddr(select), data))
      && Status(r) == COPY_SECTOR_CLEARED && Recovered(r) == r
  {
    hide CoordBuild, CoordImage, ApplyAll, UpdateOps, Recovered, AfterCrashes;
    var addr := CoordAddr(select);
    var build := CoordBuild(f.main, addr, data);
    CoordBuilt(f, addr, data);
    UpdateAtomic(f, build, CoordImage(f.main, addr, data), k, crashes);
  }

  /** Journal protection starts with the first complete recovery: from a freshly erased sector, recovery
      merges whatever the copy sector holds into the main one, so the old image survives an interruption
      exactly when the half-built copy clears none of its bits. */
  lemma ErasedStatusUnprotected(f: Memory)
    requires Status(f) == MAIN_SECTOR_ERASED
    ensures Image(Recovered(f).main) == Image(f.main) <==> AllFit(Image(f.copy), Image(f.main))
  {
    hide ApplyAll, Program;
    var ops := RestoreOps(f.copy);
    var g := ApplyAll(f, ops);
    RestorePrefix(f, RESTORE_WORDS);
    assert ops[..RESTORE_WORDS] == ops;
    Words(f);
    ApplyAllSplit(f, ops, FinishOps);
    ApplyLast(g, [EraseCopy], FinishOps[1]);
    ApplyLast(g, [], EraseCopy);
    assert FinishOps == [EraseCopy] + [FinishOps[1]] && [] + [EraseCopy] == [EraseCopy];
    var r := Recovered(f);
    forall i | 0 <= i < STATUS_OFFSET
      ensures Image(r.main)[i] == f.main[i] & f.copy[i]
      ensures Image(r.main)[i] == Image(f.main)[i] <==> Fits(Image(f.copy)[i], Image(f.main)[i])
    {
      assert r.main[i] == g.main[i];
      AndSymmetric(f.main[i], f.copy[i]);
    }
  }

  lemma AndSymmetric(a: Byte, b: Byte)
    ensures a & b == b & a
  {
  }

  /** An erase-and-copy update that runs to its end. */
  lemma Updated(f: Memory, build: seq<Op>, newImage: seq<Byte>)
    requires Status(f) in {COPY_SECTOR_CLEARED, MAIN_SECTOR_ERASED} && Builds(f, build, newImage)
    ensures Done(ApplyAll(f, UpdateOps(f, build)), newImage)
  {
    hide ApplyAll, RecoveryOps;
    var ops := UpdateOps(f, build);
    assert ops[..|ops|] == ops;
    UpdatePrefix(f, build, newImage, |ops|);
  }

  /** What both branches of a coordinate write leave behind: the data, nothing else changed outside the
      record's slot, and padding erased by an erase. */
  ghost predicate Wrote(f: Memory, g: Memory, addr: nat, data: CoordData, inPlace: bool)
    requires Slot(addr)
  {
    && g.main[addr..addr + COORD_SIZE] == data
    && g.main[addr + COORD_SIZE] == (if inPlace then f.main[addr + COORD_SIZE] & Checksum(data) else Checksum(data))
    && (forall i :: 0 <= i < STATUS_OFFSET && !(addr <= i < addr + COORD_STRIDE) ==> g.main[i] == f.main[i])
    && (forall i :: addr + COORD_SIZE < i < addr + COORD_STRIDE ==> g.main[i] == if inPlace then f.main[i] else 0xFF)
    && Status(g) == if inPlace then Status(f) else COPY_SECTOR_CLEARED
  }

  lemma DataStays(s: Sector, addr: nat, data: seq<Byte>, tail: seq<Byte>)
    requires addr + |data| <= SECTOR_SIZE && AllFit(s[addr..addr + |data|], data)
    ensures Program(s, addr, data + tail)[addr..addr + |data|] == data
  {
    hide Program;
    var bytes, stored, after := data + tail, s[addr..addr + |data|], Program(s, addr, data + tail)[addr..addr + |data|];
    forall i | 0 <= i < |data| ensures after[i] == data[i] {
      assert Fits(stored[i], data[i]) && bytes[i] == data[i];
    }
  }

  lemma WroteInPlace(f: Memory, addr: nat, data: CoordData)
    requires Slot(addr) && AllFit(f.main[addr..addr + COORD_SIZE], data)
    ensures Wrote(f, ApplyAll(f, PutOps(InMain, addr, data)), addr, data, true)
  {
    hide ApplyAll, Program, Checksum, PutOps;
    var g := ApplyAll(f, PutOps(InMain, addr, data));
    var record := data + [Checksum(data)];
    PutEffect(f, InMain, addr, data);
    assert g.main == Program(f.main, addr, record);
    DataStays(f.main, addr, data, [Checksum(data)]);
    assert record[COORD_SIZE] == Checksum(data);
    assert Status(g) == Status(f);
  }

  lemma WroteErasing(f: Memory, addr: nat, data: CoordData)
    requires Slot(addr) && Status(f) in {COPY_SECTOR_CLEARED, MAIN_SECTOR_ERASED}
    ensures Wrote(f, ApplyAll(f, UpdateOps(f, CoordBuild(f.main, addr, data))), addr, data, false)
  {
    hide ApplyAll, Wrote, Checksum, UpdateOps, CoordBuild, CoordImage;
    CoordBuilt(f, addr, data);
    Updated(f, CoordBuild(f.main, addr, data), CoordImage(f.main, addr, data));
    WroteImage(f, ApplyAll(f, UpdateOps(f, CoordBuild(f.main, addr, data))), addr, data);
  }

  lemma WroteImage(f: Memory, g: Memory, addr: nat, data: CoordData)
    requires Slot(addr) && Done(g, CoordImage(f.main, addr, data))
    ensures Wrote(f, g, addr, data, false)
  {
    hide Checksum;
    assert forall i :: 0 <= i < STATUS_OFFSET ==> g.main[i] == Image(g.main)[i] == CoordImage(f.main, addr, data)[i];
    assert g.main[addr..addr + COORD_SIZE] == data;
  }

  lemma WroteIntact(f: Memory, g: Memory, addr: nat, data: CoordData, inPlace: bool)
    requires Slot(addr) && Wrote(f, g, addr, data, inPlace)
    ensures Intact(g.main, addr, COORD_SIZE) <==> (inPlace ==> Fits(f.main[addr + COORD_SIZE], Checksum(data)))
  {
    hide Checksum, Status;
  }

  /** Read after write, with frame. The record reads back unless it was programmed in place over a stored
      checksum with a needed bit cleared: the writer looks at the checksum of the stored data instead. */
  lemma CoordReadAfterWrite(f: Memory, select: nat, data: CoordData)
    requires Selects(select) && Status(f) in {COPY_SECTOR_CLEARED, MAIN_SECTOR_ERASED}
    ensures var addr := CoordAddr(select);
      var g := ApplyAll(f, WriteCoordOps(f, select, data));
      && Wrote(f, g, addr, data, InPlace(f, select, data))
      && (Intact(g.main, addr, COORD_SIZE) <==> (InPlace(f, select, data) ==> Fits(f.main[addr + COORD_SIZE], Checksum(data))))
  {
    hide ApplyAll, Program, Checksum, UpdateOps, PutOps, CoordBuild, Status;
    var addr := CoordAddr(select);
    var g := ApplyAll(f, WriteCoordOps(f, select, data));
    if InPlace(f, select, data) {
      WroteInPlace(f, addr, data);
    } else {
      WroteErasing(f, addr, data);
    }
    WroteIntact(f, g, addr, data, InPlace(f, select, data));
  }

  /** From an intact record, or an erased one, the next read succeeds and returns the data written. */
  lemma CoordReadsBack(f: Memory, select: nat, data: CoordData)
    requires Selects(select) && Status(f) in {COPY_SECTOR_CLEARED, MAIN_SECTOR_ERASED}
    requires Intact(f.main, CoordAddr(select), COORD_SIZE) || f.main[CoordAddr(select) + COORD_SIZE] == 0xFF
    ensures var g := ApplyAll(f, WriteCoordOps(f, select, data));
      Intact(g.main, CoordAddr(select), COORD_SIZE) && StoredCoord(g.main, select) == data
  {
    hide ApplyAll, Program, Checksum, WriteCoordOps;
    CoordReadAfterWrite(f, select, data);
    AndAll(Checksum(data));
  }

  /** A record whose checksum byte has lost its bits is not mended by writing the same data again. */
  lemma WornChecksumStays(f: Memory, select: nat)
    requires Selects(select) && Status(f) == COPY_SECTOR_CLEARED
    requires StoredCoord(f.main, select) == seq(COORD_SIZE - 1, _ => 0 as Byte) + [1]
    requires f.main[CoordAddr(select) + COORD_SIZE] == 0
    ensures var g := ApplyAll(f, WriteCoordOps(f, select, StoredCoord(f.main, select)));
      !Intact(g.main, CoordAddr(select), COORD_SIZE)
  {
    hide ApplyAll, Program, WriteCoordOps, Intact;
    var data := StoredCoord(f.main, select);
    ChecksumOfZeros(COORD_SIZE - 1);
    assert data[..COORD_SIZE - 1] == seq(COORD_SIZE - 1, _ => 0 as Byte);
    assert Checksum(data) == 1;
    CoordReadAfterWrite(f, select, data);
  }

  /** Writing one record keeps every other one, and the global settings. */
  lemma CoordKeepsOthers(f: Memory, select: nat, data: CoordData, other: nat)
    requires Selects(select) && Selects(other) && select != other && Status(f) in {COPY_SECTOR_CLEARED, MAIN_SECTOR_ERASED}
    ensures var g := ApplyAll(f, WriteCoordOps(f, select, data));
      && StoredCoord(g.main, other) == StoredCoord(f.main, other)
      && (Intact(g.main, CoordAddr(other), COORD_SIZE) <==> Intact(f.main, CoordAddr(other), COORD_SIZE))
      && g.main[..PARAMETERS_OFFSET] == f.main[..PARAMETERS_OFFSET]
  {
    hide ApplyAll, Program, Checksum, WriteCoordOps, Intact, Status;
    CoordReadAfterWrite(f, select, data);
    var g, addr, kept := ApplyAll(f, WriteCoordOps(f, select, data)), CoordAddr(select), CoordAddr(other);
    SlotsApart(select, other);
    SameSlice(g.main, f.main, kept, kept + COORD_SIZE + 1);
    SameRecord(f.main, g.main, kept, COORD_SIZE);
  }

  lemma SlotsApart(select: nat, other: nat)
    requires Selects(select) && Selects(other) && select != other
    ensures CoordAddr(other) + COORD_STRIDE <= CoordAddr(select) || CoordAddr(select) + COORD_STRIDE <= CoordAddr(other)
  {
  }

  lemma SameRecord(s: Sector, t: Sector, addr: nat, size: nat)
    requires addr + size < SECTOR_SIZE && s[addr..addr + size + 1] == t[addr..addr + size + 1]
    ensures s[addr..addr + size] == t[addr..addr + size] && (Intact(s, addr, size) <==> Intact(t, addr, size))
  {
    hide Checksum;
    RecordParts(s, addr, size);
    RecordParts(t, addr, size);
  }

  lemma RecordParts(s: Sector, addr: nat, size: nat)
    requires addr + size < SECTOR_SIZE
    ensures s[addr..addr + size] == s[addr..addr + size + 1][..size] && s[addr + size] == s[addr..addr + size + 1][size]
  {
  }

  // ---- The global settings ----

  /** The image an erase-and-copy of the settings builds. */
  function GlobalImage(main: Sector, settings: seq<Byte>): (r: seq<Byte>)
    requires GLOBAL_OFFSET + |settings| < PARAMETERS_OFFSET
    ensures |r| == STATUS_OFFSET
  {
    var record := settings + [Checksum(settings)];
    seq(STATUS_OFFSET, i requires 0 <= i < STATUS_OFFSET =>
      if i == 0 then SETTINGS_VERSION
      else if GLOBAL_OFFSET <= i < GLOBAL_OFFSET + |record| then record[i - GLOBAL_OFFSET]
      else if i < PARAMETERS_OFFSET then 0xFF
      else main[i])
  }

  function GlobalCopy(main: Sector, settings: seq<Byte>): Sector {
    Written(Written(Written(Erased(), 0, [SETTINGS_VERSION]), GLOBAL_OFFSET, settings + [Checksum(settings)]),
            PARAMETERS_OFFSET, main[PARAMETERS_OFFSET..STATUS_OFFSET])
  }

  lemma GlobalCopyImage(main: Sector, settings: seq<Byte>)
    requires GLOBAL_OFFSET + |settings| < PARAMETERS_OFFSET
    ensures Image(GlobalCopy(main, settings)) == GlobalImage(main, settings)
  {
    hide Written, Checksum;
    var copy := GlobalCopy(main, settings);
    assert forall i :: 0 <= i < STATUS_OFFSET ==> Image(copy)[i] == copy[i] == GlobalImage(main, settings)[i];
  }

  lemma GlobalCopyHolds(f: Memory, settings: seq<Byte>)
    requires GLOBAL_OFFSET + |settings| < PARAMETERS_OFFSET && f.copy == GlobalCopy(f.main, settings)
    ensures CopyHolds(f, GlobalImage(f.main, settings))
  {
    hide Written, Checksum, GlobalImage, Image;
    GlobalCopyImage(f.main, settings);
  }

  lemma GlobalBuilt(f: Memory, settings: seq<Byte>)
    requires GLOBAL_OFFSET + |settings| < PARAMETERS_OFFSET
    ensures Builds(f, GlobalBuild(f.main, settings), GlobalImage(f.main, settings))
  {
    hide Program, Written, PutOps, CopyOps, Checksum, Words4, OnCopy, CopyHolds;
    var a, b := [EraseCopy], [ProgramCopy(0, [SETTINGS_VERSION])];
    var c, d := PutOps(InCopy, GLOBAL_OFFSET, settings), CopyOps(f.main, PARAMETERS_OFFSET, Words4(PARAMETERS_OFFSET, STATUS_OFFSET));
    var f1 := f.(copy := Erased());
    var f2 := f1.(copy := Written(f1.copy, 0, [SETTINGS_VERSION]));
    var f3 := f2.(copy := Written(f2.copy, GLOBAL_OFFSET, settings + [Checksum(settings)]));
    var f4 := f3.(copy := Written(f3.copy, PARAMETERS_OFFSET, f.main[PARAMETERS_OFFSET..STATUS_OFFSET]));
    ProgramErased(f1.copy, 0, [SETTINGS_VERSION]);
    ProgramErased(f2.copy, GLOBAL_OFFSET, settings + [Checksum(settings)]);
    ProgramErased(f3.copy, PARAMETERS_OFFSET, f.main[PARAMETERS_OFFSET..STATUS_OFFSET]);
    assert ApplyAll(f, a) == f1 by { assert a[..0] == []; }
    ApplyLast(f, a, b[0]);
    PutEffect(f2, InCopy, GLOBAL_OFFSET, settings);
    ApplyAllSplit(f, a + b, c);
    CopyAllEffect(f3, f.main, PARAMETERS_OFFSET, STATUS_OFFSET);
    ApplyAllSplit(f, a + b + c, d);
    GlobalOnCopy(f.main, settings);
    GlobalCopyHolds(f4, settings);
  }

  lemma GlobalOnCopy(main: Sector, settings: seq<Byte>)
    ensures OnCopy(GlobalBuild(main, settings))
  {
    hide Checksum;
  }

  /** The settings as read_global_settings accepts them. */
  predicate GlobalReads(s: Sector, settings: seq<Byte>)
    requires GLOBAL_OFFSET + |settings| < PARAMETERS_OFFSET
  {
    && s[0] == SETTINGS_VERSION && Intact(s, GLOBAL_OFFSET, |settings|)
    && s[GLOBAL_OFFSET..GLOBAL_OFFSET + |settings|] == settings
  }

  /** The bytes the settings are programmed over have kept every bit the settings need. */
  predicate GlobalFits(s: Sector, settings: seq<Byte>)
    requires GLOBAL_OFFSET + |settings| < PARAMETERS_OFFSET
  {
    && Fits(s[0], SETTINGS_VERSION)
    && AllFit(s[GLOBAL_OFFSET..GLOBAL_OFFSET + |settings| + 1], settings + [Checksum(settings)])
  }

  lemma GlobalInPlace(f: Memory, settings: seq<Byte>)
    requires GLOBAL_OFFSET + |settings| < PARAMETERS_OFFSET
    ensures GlobalReads(ApplyAll(f, [ProgramMain(0, [SETTINGS_VERSION])] + PutOps(InMain, GLOBAL_OFFSET, settings)).main, settings)
      <==> GlobalFits(f.main, settings)
  {
    hide Program, PutOps, Checksum;
    var version := [ProgramMain(0, [SETTINGS_VERSION])];
    var record := settings + [Checksum(settings)];
    var f1 := f.(main := Program(f.main, 0, [SETTINGS_VERSION]));
    assert ApplyAll(f, version) == f1 by { assert version[..0] == []; }
    ApplyAllSplit(f, version, PutOps(InMain, GLOBAL_OFFSET, settings));
    PutEffect(f1, InMain, GLOBAL_OFFSET, settings);
    var s := Program(f1.main, GLOBAL_OFFSET, record);
    ProgramBack(f1.main, GLOBAL_OFFSET, record);
    assert f1.main[GLOBAL_OFFSET..GLOBAL_OFFSET + |record|] == f.main[GLOBAL_OFFSET..GLOBAL_OFFSET + |record|];
    ReadsRecord(s, settings);
  }

  lemma ReadsRecord(s: Sector, settings: seq<Byte>)
    requires GLOBAL_OFFSET + |settings| < PARAMETERS_OFFSET
    ensures GlobalReads(s, settings)
      <==> s[0] == SETTINGS_VERSION && s[GLOBAL_OFFSET..GLOBAL_OFFSET + |settings| + 1] == settings + [Checksum(settings)]
  {
    hide Checksum;
    var n := |settings|;
    var stored, data := s[GLOBAL_OFFSET..GLOBAL_OFFSET + n + 1], s[GLOBAL_OFFSET..GLOBAL_OFFSET + n];
    var record := settings + [Checksum(settings)];
    assert stored == data + [s[GLOBAL_OFFSET + n]];
    if stored == record {
      assert data == stored[..n] == record[..n] == settings;
      assert s[GLOBAL_OFFSET + n] == stored[n] == record[n];
    }
  }

  /** Settings written by erase-and-copy read back; settings programmed in place read back exactly when the
      bytes they are programmed over fit, which is not what the writer checks. */
  lemma GlobalReadAfterWrite(f: Memory, settings: seq<Byte>)
    requires GLOBAL_OFFSET + |settings| < PARAMETERS_OFFSET && Status(f) in {COPY_SECTOR_CLEARED, MAIN_SECTOR_ERASED}
    ensures GlobalReads(ApplyAll(f, WriteGlobalOps(f, settings)).main, settings)
      <==> (LooksProgrammable(f.main[..|settings|], settings) ==> GlobalFits(f.main, settings))
  {
    hide ApplyAll, Program, Checksum, UpdateOps, PutOps, GlobalBuild, GlobalFits;
    if LooksProgrammable(f.main[..|settings|], settings) {
      GlobalInPlace(f, settings);
    } else {
      var g := ApplyAll(f, WriteGlobalOps(f, settings));
      var image := GlobalImage(f.main, settings);
      GlobalBuilt(f, settings);
      Updated(f, GlobalBuild(f.main, settings), image);
      assert forall i :: 0 <= i < STATUS_OFFSET ==> g.main[i] == Image(g.main)[i] == image[i];
      assert g.main[GLOBAL_OFFSET..GLOBAL_OFFSET + |settings|] == settings;
    }
  }

  /** Writing the settings keeps every coordinate record. */
  lemma GlobalKeepsCoords(f: Memory, settings: seq<Byte>, select: nat)
    requires GLOBAL_OFFSET + |settings| < PARAMETERS_OFFSET && Selects(select) && Status(f) in {COPY_SECTOR_CLEARED, MAIN_SECTOR_ERASED}
    ensures var g := ApplyAll(f, WriteGlobalOps(f, settings));
      && StoredCoord(g.main, select) == StoredCoord(f.main, select)
      && (Intact(g.main, CoordAddr(select), COORD_SIZE) <==> Intact(f.main, CoordAddr(select), COORD_SIZE))
  {
    hide ApplyAll, Program, Checksum, UpdateOps, PutOps, GlobalBuild, Intact, Status;
    var g, addr := ApplyAll(f, WriteGlobalOps(f, settings)), CoordAddr(select);
    if LooksProgrammable(f.main[..|settings|], settings) {
      GlobalInPlaceKeeps(f, settings);
    } else {
      var image := GlobalImage(f.main, settings);
      GlobalBuilt(f, settings);
      Updated(f, GlobalBuild(f.main, settings), image);
      assert forall i :: PARAMETERS_OFFSET <= i < STATUS_OFFSET ==> g.main[i] == Image(g.main)[i] == image[i];
    }
    assert forall i :: PARAMETERS_OFFSET <= i < STATUS_OFFSET ==> g.main[i] == f.main[i];
    SameSlice(g.main, f.main, addr, addr + COORD_SIZE + 1);
    SameRecord(f.main, g.main, addr, COORD_SIZE);
  }

  lemma SameSlice(s: Sector, t: Sector, a: nat, b: nat)
    requires a <= b <= SECTOR_SIZE && forall i :: a <= i < b ==> s[i] == t[i]
    ensures s[a..b] == t[a..b]
  {
  }

  lemma GlobalInPlaceKeeps(f: Memory, settings: seq<Byte>)
    requires GLOBAL_OFFSET + |settings| < PARAMETERS_OFFSET
    ensures var g := ApplyAll(f, [ProgramMain(0, [SETTINGS_VERSION])] + PutOps(InMain, GLOBAL_OFFSET, settings));
      forall i :: PARAMETERS_OFFSET <= i < SECTOR_SIZE ==> g.main[i] == f.main[i]
  {
    hide Program, PutOps, Checksum;
    var version := [ProgramMain(0, [SETTINGS_VERSION])];
    assert ApplyAll(f, version) == f.(main := Program(f.main, 0, [SETTINGS_VERSION])) by { assert version[..0] == []; }
    ApplyAllSplit(f, version, PutOps(InMain, GLOBAL_OFFSET, settings));
    PutEffect(ApplyAll(f, version), InMain, GLOBAL_OFFSET, settings);
  }

  // The sign bytes of two little-endian floats in the settings: accelerations are kept positive, travels negated.
  const ACCELERATION_Z_SIGN: nat := 35
  const MAX_TRAVEL_X_SIGN: nat := 39

  /** Settings as the firmware keeps them do read back: over earlier ones the travel of X, looked for where the
      acceleration of Z is stored, never looks programmable, so they are erased; over an erased sector they fit. */
  lemma KeptSettingsReadBack(f: Memory, settings: seq<Byte>)
    requires MAX_TRAVEL_X_SIGN < |settings| && GLOBAL_OFFSET + |settings| < PARAMETERS_OFFSET && Status(f) in {COPY_SECTOR_CLEARED, MAIN_SECTOR_ERASED}
    requires settings[MAX_TRAVEL_X_SIGN] >= 0x80
    requires f.main[GLOBAL_OFFSET + ACCELERATION_Z_SIGN] < 0x80 || Blank(f.main, 0, PARAMETERS_OFFSET)
    ensures GlobalReads(ApplyAll(f, WriteGlobalOps(f, settings)).main, settings)
  {
    hide ApplyAll, Program, WriteGlobalOps, GlobalReads, Checksum;
    GlobalReadAfterWrite(f, settings);
    if f.main[GLOBAL_OFFSET + ACCELERATION_Z_SIGN] < 0x80 {
      SignLost(f.main[..|settings|][MAX_TRAVEL_X_SIGN], settings[MAX_TRAVEL_X_SIGN]);
    } else {
      BlankFits(f.main, settings);
    }
  }

  lemma SignLost(stored: Byte, wanted: Byte)
    requires stored < 0x80 && wanted >= 0x80
    ensures !Fits(stored, wanted)
  {
  }

  lemma BlankFits(s: Sector, settings: seq<Byte>)
    requires GLOBAL_OFFSET + |settings| < PARAMETERS_OFFSET && Blank(s, 0, PARAMETERS_OFFSET)
    ensures GlobalFits(s, settings)
  {
    hide Checksum;
    var record, stored := settings + [Checksum(settings)], s[GLOBAL_OFFSET..GLOBAL_OFFSET + |settings| + 1];
    AndAll(SETTINGS_VERSION);
    forall i | 0 <= i < |record| ensures Fits(stored[i], record[i]) {
      AndAll(record[i]);
    }
  }

  /** A write in place that passes the check and loses the settings: of values the firmware does not keep. */
  lemma GlobalInPlaceLoses(f: Memory, n: nat)
    requires 0 < n < PARAMETERS_OFFSET - GLOBAL_OFFSET && Status(f) == COPY_SECTOR_CLEARED
    requires f.main[0] == SETTINGS_VERSION && f.main[GLOBAL_OFFSET] == 0
    ensures !GlobalReads(ApplyAll(f, WriteGlobalOps(f, f.main[..n])).main, f.main[..n])
  {
    hide ApplyAll, Program, WriteGlobalOps, GlobalReads;
    var settings := f.main[..n];
    assert !Fits(f.main[GLOBAL_OFFSET..GLOBAL_OFFSET + n + 1][0], (settings + [Checksum(settings)])[0]);
    FitsItself(settings);
    GlobalReadAfterWrite(f, settings);
  }

  lemma FitsItself(data: seq<Byte>)
    ensures LooksProgrammable(data, data)
  {
    hide Checksum;
  }

  /** Replacing the settings by erase-and-copy is atomic in the same sense as replacing a coordinate record. */
  lemma GlobalUpdateAtomic(f: Memory, settings: seq<Byte>, k: nat, crashes: seq<nat>)
    requires GLOBAL_OFFSET + |settings| < PARAMETERS_OFFSET && Status(f) == COPY_SECTOR_CLEARED
    requires !LooksProgrammable(f.main[..|settings|], settings)
    ensures var r := Recovered(AfterCrashes(ApplyAll(f, Cut(WriteGlobalOps(f, settings), k)), crashes));
      && Image(r.main) == (if k <= |GlobalBuild(f.main, settings)| then Image(f.main) else GlobalImage(f.main, settings))
      && Status(r) == COPY_SECTOR_CLEARED && Recovered(r) == r
  {
    hide GlobalBuild, GlobalImage, ApplyAll, UpdateOps, Recovered, AfterCrashes;
    var build := GlobalBuild(f.main, settings);
    GlobalBuilt(f, settings);
    UpdateAtomic(f, build, GlobalImage(f.main, settings), k, crashes);
  }
}
