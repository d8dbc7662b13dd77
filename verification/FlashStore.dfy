/** The settings store itself: the loops that program the two flash sectors, and the writers of the
    coordinate and global records. Each issues a sequence of atomic operations that the specification
    names, so that cutting a run short is taking a prefix of it. */
module FlashStore {
  import opened FlashOps

  datatype Bank = InMain | InCopy

  const PARAMETERS_OFFSET: nat := 512
  const GLOBAL_OFFSET: nat := 4
  const SETTINGS_VERSION: Byte := 9
  const COORD_SIZE: nat := 12 // three 32-bit floats
  const COORD_STRIDE: nat := 16 // room for a fourth, of which the checksum takes one byte

  type CoordData = d: seq<Byte> | |d| == COORD_SIZE witness seq(COORD_SIZE, _ => 0 as Byte)

  function ProgramAt(bank: Bank, addr: nat, bytes: seq<Byte>): Op {
    if bank.InMain? then ProgramMain(addr, bytes) else ProgramCopy(addr, bytes)
  }

  function EraseOf(bank: Bank): Op {
    if bank.InMain? then EraseMain else EraseCopy
  }

  // ---- Records and their checksums ----

  function Mix(checksum: Byte, data: Byte): Byte {
    ((checksum << 1) | (checksum >> 7)) + data
  }

  function Checksum(data: seq<Byte>): Byte {
    if data == [] then 0 else Mix(Checksum(data[..|data| - 1]), data[|data| - 1])
  }

  lemma NoChecksum()
    ensures Checksum([]) == 0
  {
  }

  lemma ChecksumStep(data: seq<Byte>, i: nat)
    requires i < |data|
    ensures Checksum(data[..i + 1]) == Mix(Checksum(data[..i]), data[i])
  {
    assert data[..i + 1][..i] == data[..i];
  }

  lemma MixTellsData(checksum: Byte, data: Byte, other: Byte)
    ensures data != other ==> Mix(checksum, data) != Mix(checksum, other)
  {
  }

  lemma MixTellsChecksum(checksum: Byte, other: Byte, data: Byte)
    ensures checksum != other ==> Mix(checksum, data) != Mix(other, data)
  {
    if Rotated(checksum, 1) == Rotated(other, 1) {
      RotateBack(checksum);
      RotateBack(other);
    }
  }

  /** The bits turned left by k places. */
  function Rotated(b: Byte, k: nat): Byte {
    if k == 0 then b else var r := Rotated(b, k - 1); (r << 1) | (r >> 7)
  }

  lemma RotateBack(b: Byte)
    ensures var r := Rotated(b, 1); (r >> 1) | (r << 7) == b
  {
    assert Rotated(b, 1) == (b << 1) | (b >> 7);
  }

  /** Changing any one byte, and no other, changes the checksum: no damage to a single byte goes unnoticed. */
  lemma {:induction false} ChecksumTells(data: seq<Byte>, i: nat, b: Byte)
    requires i < |data| && b != data[i]
    ensures Checksum(data[i := b]) != Checksum(data)
  {
    hide Mix;
    var n := |data| - 1;
    if i == n {
      assert data[i := b][..n] == data[..n];
      MixTellsData(Checksum(data[..n]), data[i], b);
    } else {
      assert data[i := b][..n] == data[..n][i := b];
      ChecksumTells(data[..n], i, b);
      MixTellsChecksum(Checksum(data[..n]), Checksum(data[..n][i := b]), data[n]);
    }
  }

  /** A byte among zeros is turned left once for every byte after it. */
  lemma {:induction false} ChecksumOfOne(n: nat, i: nat, b: Byte)
    requires i < n
    ensures Checksum(seq(n, _ => 0 as Byte)[i := b]) == Rotated(b, n - 1 - i)
  {
    var zeros, data := seq(n, _ => 0 as Byte), seq(n, _ => 0 as Byte)[i := b];
    if i == n - 1 {
      ChecksumOfZeros(n - 1);
      assert data[..n - 1] == seq(n - 1, _ => 0 as Byte);
    } else {
      ChecksumOfOne(n - 1, i, b);
      assert data[..n - 1] == seq(n - 1, _ => 0 as Byte)[i := b];
    }
  }

  lemma {:induction false} ChecksumOfZeros(n: nat)
    ensures Checksum(seq(n, _ => 0 as Byte)) == 0
  {
    if n > 0 {
      ChecksumOfZeros(n - 1);
      assert seq(n, _ => 0 as Byte)[..n - 1] == seq(n - 1, _ => 0 as Byte);
    }
  }

  /** Records that differ in exactly one byte. */
  ghost predicate OneByteApart(s: Sector, t: Sector, addr: nat, size: nat)
    requires addr + size < SECTOR_SIZE
  {
    exists i :: addr <= i <= addr + size && OnlyApartAt(s, t, addr, size, i)
  }

  predicate OnlyApartAt(s: Sector, t: Sector, addr: nat, size: nat, i: nat)
    requires addr <= i <= addr + size < SECTOR_SIZE
  {
    s[i] != t[i] && forall j :: addr <= j <= addr + size && j != i ==> s[j] == t[j]
  }

  /** A record of which exactly one byte has changed, be it of the data or the checksum, is not intact. */
  lemma DamageFound(was: Sector, now: Sector, addr: nat, size: nat)
    requires addr + size < SECTOR_SIZE && Intact(was, addr, size) && OneByteApart(was, now, addr, size)
    ensures !Intact(now, addr, size)
  {
    hide Checksum;
    var i :| addr <= i <= addr + size && OnlyApartAt(was, now, addr, size, i);
    var data, damaged := was[addr..addr + size], now[addr..addr + size];
    SlicesApart(was, now, addr, size, i);
    if i < addr + size {
      ChecksumTells(data, i - addr, now[i]);
    }
  }

  lemma SlicesApart(s: Sector, t: Sector, addr: nat, size: nat, i: nat)
    requires addr <= i <= addr + size < SECTOR_SIZE && OnlyApartAt(s, t, addr, size, i)
    ensures t[addr..addr + size] == if i < addr + size then s[addr..addr + size][i - addr := t[i]] else s[addr..addr + size]
  {
    var data, other := s[addr..addr + size], t[addr..addr + size];
    forall j | 0 <= j < size ensures other[j] == if j == i - addr then t[i] else data[j] {
      assert other[j] == t[addr + j] && data[j] == s[addr + j];
    }
  }

  /** A record as read back: its data and whether the byte after it is their checksum. */
  predicate Intact(s: Sector, addr: nat, size: nat)
    requires addr + size < SECTOR_SIZE
  {
    s[addr + size] == Checksum(s[addr..addr + size])
  }

  /** No bit of `wanted` has been cleared in `stored`. */
  predicate Fits(stored: Byte, wanted: Byte) {
    stored & wanted == wanted
  }

  predicate AllFit(stored: seq<Byte>, wanted: seq<Byte>)
    requires |stored| == |wanted|
  {
    forall i :: 0 <= i < |wanted| ==> Fits(stored[i], wanted[i])
  }

  /** Programming in place looks possible: the data fit, and so do the checksums computed over them. The
      checksum actually stored is not looked at. */
  predicate LooksProgrammable(stored: seq<Byte>, wanted: seq<Byte>)
    requires |stored| == |wanted|
  {
    AllFit(stored, wanted) && Fits(Checksum(stored), Checksum(wanted))
  }

  lemma DiffMask(stored: Byte, wanted: Byte)
    ensures (stored ^ wanted) & wanted == 0 <==> Fits(stored, wanted)
  {
  }

  // ---- The operations each loop issues ----

  function RecordOps(bank: Bank, addr: nat, data: seq<Byte>): (ops: seq<Op>)
    ensures |ops| == |data|
    ensures forall i :: 0 <= i < |data| ==> ops[i] == ProgramAt(bank, addr + i, [data[i]])
  {
    seq(|data|, i requires 0 <= i < |data| => ProgramAt(bank, addr + i, [data[i]]))
  }

  function PutOps(bank: Bank, addr: nat, data: seq<Byte>): seq<Op> {
    RecordOps(bank, addr, data) + [ProgramAt(bank, addr + |data|, [Checksum(data)])]
  }

  /** n whole words from `start`. */
  function CopyOps(main: Sector, start: nat, n: nat): (ops: seq<Op>)
    requires start + 4 * n <= SECTOR_SIZE
    ensures |ops| == n
    ensures forall i :: 0 <= i < n ==> ops[i] == ProgramCopy(start + 4 * i, main[start + 4 * i..start + 4 * i + 4])
  {
    seq(n, i requires 0 <= i < n => ProgramCopy(start + 4 * i, main[start + 4 * i..start + 4 * i + 4]))
  }

  /** How many words a copy from start to end takes: the last one may reach beyond the end. */
  function Words4(start: nat, end: nat): (n: nat)
    ensures start + 4 * n < end + 4 || n == 0
  {
    if start < end then (end - start + 3) / 4 else 0
  }

  // ---- Writing a coordinate record ----

  /** The eight coordinate systems the store has room for. */
  predicate Selects(select: nat) {
    select < 8
  }

  predicate Slot(addr: nat) {
    addr % 4 == 0 && PARAMETERS_OFFSET <= addr <= STATUS_OFFSET - COORD_STRIDE
  }

  function CoordAddr(select: nat): (addr: nat)
    ensures Selects(select) ==> Slot(addr)
  {
    select * COORD_STRIDE + PARAMETERS_OFFSET
  }

  /** The copy sector erased, the record at addr written into it, and the rest taken from the main sector. */
  function CoordBuild(main: Sector, addr: nat, data: CoordData): seq<Op>
    requires Slot(addr)
  {
    [EraseCopy] + PutOps(InCopy, addr, data) + CopyOps(main, 0, Words4(0, addr)) + CopyOps(main, addr + COORD_STRIDE, Words4(addr + COORD_STRIDE, STATUS_OFFSET))
  }

  function WriteCoordOps(f: Memory, select: nat, data: CoordData): seq<Op>
    requires Selects(select)
  {
    var addr := CoordAddr(select);
    if LooksProgrammable(f.main[addr..addr + COORD_SIZE], data) then PutOps(InMain, addr, data)
    else UpdateOps(f, CoordBuild(f.main, addr, data))
  }

  /** Image after an erase-and-copy: the record, three bytes of padding left erased, the rest as it was. */
  function CoordImage(main: Sector, addr: nat, data: CoordData): (r: seq<Byte>)
    requires Slot(addr)
    ensures |r| == STATUS_OFFSET
  {
    main[..addr] + data + [Checksum(data), 0xFF, 0xFF, 0xFF] + main[addr + COORD_STRIDE..STATUS_OFFSET]
  }

  function StoredCoord(s: Sector, select: nat): CoordData
    requires Selects(select)
  {
    s[CoordAddr(select)..CoordAddr(select) + COORD_SIZE]
  }

  function ZeroVector(): (r: CoordData)
    ensures forall i :: 0 <= i < COORD_SIZE ==> r[i] == 0
  {
    seq(COORD_SIZE, _ => 0 as Byte)
  }

  // ---- Writing the global settings ----

  function GlobalBuild(main: Sector, settings: seq<Byte>): seq<Op> {
    [EraseCopy] + [ProgramCopy(0, [SETTINGS_VERSION])] + PutOps(InCopy, GLOBAL_OFFSET, settings)
    + CopyOps(main, PARAMETERS_OFFSET, Words4(PARAMETERS_OFFSET, STATUS_OFFSET))
  }

  /** The check looks at the start of the sector, where the version byte is, not where the data go. */
  function WriteGlobalOps(f: Memory, settings: seq<Byte>): seq<Op>
    requires GLOBAL_OFFSET + |settings| < PARAMETERS_OFFSET
  {
    if LooksProgrammable(f.main[..|settings|], settings) then
      [ProgramMain(0, [SETTINGS_VERSION])] + PutOps(InMain, GLOBAL_OFFSET, settings)
    else UpdateOps(f, GlobalBuild(f.main, settings))
  }

  lemma TakeNext(t: seq<Op>, ops: seq<Op>, i: nat)
    requires i < |ops|
    ensures t + ops[..i] + [ops[i]] == t + ops[..i + 1]
  {
  }

  lemma Append(t: seq<Op>, a: seq<Op>, b: seq<Op>)
    ensures t + a + b == t + (a + b)
  {
  }

  lemma Regroup(t: seq<Op>, a: seq<Op>, b: seq<Op>, c: seq<Op>, d: seq<Op>)
    ensures t + a + b + c + d == t + (a + b + c + d)
  {
  }

  method ClearBits(sector: array<Byte>, addr: nat, bytes: seq<Byte>)
    requires sector.Length == SECTOR_SIZE && addr + |bytes| <= SECTOR_SIZE
    modifies sector
    ensures sector[..] == Program(old(sector[..]), addr, bytes)
  {
    forall i | 0 <= i < |bytes| {
      sector[addr + i] := sector[addr + i] & bytes[i];
    }
    ghost var s := old(sector[..]);
    assert forall i :: 0 <= i < SECTOR_SIZE ==> sector[i] == if addr <= i < addr + |bytes| then s[i] & bytes[i - addr] else s[i];
  }

  method SetBits(sector: array<Byte>)
    requires sector.Length == SECTOR_SIZE
    modifies sector
    ensures sector[..] == Erased()
  {
    forall i | 0 <= i < SECTOR_SIZE {
      sector[i] := 0xFF;
    }
  }

  class Eflash {
    const main: array<Byte>
    const copy: array<Byte>
    ghost const start: Memory // what the sectors held at power-up
    ghost var flash: Memory // what they hold now
    ghost var issued: seq<Op> // every flash operation in between

    ghost predicate Valid()
      reads this, main, copy
    {
      && main.Length == copy.Length == SECTOR_SIZE && main != copy
      && main[..] == flash.main && copy[..] == flash.copy
      && flash == ApplyAll(start, issued)
    }

    constructor (main: array<Byte>, copy: array<Byte>)
      requires main.Length == copy.Length == SECTOR_SIZE && main != copy
      ensures Valid() && issued == [] && this.main == main && this.copy == copy
    {
      this.main, this.copy := main, copy;
      start, flash, issued := Memory(main[..], copy[..]), Memory(main[..], copy[..]), [];
    }

    /** What the operations issued since some moment did to the flash of that moment. */
    lemma Since(f: Memory, before: seq<Op>, ops: seq<Op>)
      requires Valid() && f == ApplyAll(start, before) && issued == before + ops
      ensures flash == ApplyAll(f, ops)
    {
      ApplyAllSplit(start, before, ops);
    }

    /** One byte or one word, atomically. */
    method FlashProgram(bank: Bank, addr: nat, bytes: seq<Byte>)
      requires Valid() && addr + |bytes| <= SECTOR_SIZE
      modifies this, main, copy
      ensures Valid() && flash == Apply(old(flash), ProgramAt(bank, addr, bytes))
      ensures issued == old(issued) + [ProgramAt(bank, addr, bytes)]
      ensures bank.InCopy? ==> flash.main == old(flash).main
    {
      if bank.InMain? {
        ClearBits(main, addr, bytes);
      } else {
        ClearBits(copy, addr, bytes);
      }
      Record(ProgramAt(bank, addr, bytes));
    }

    method DeleteSector(bank: Bank)
      requires Valid()
      modifies this, main, copy
      ensures Valid() && flash == Apply(old(flash), EraseOf(bank)) && issued == old(issued) + [EraseOf(bank)]
    {
      if bank.InMain? {
        SetBits(main);
      } else {
        SetBits(copy);
      }
      Record(EraseOf(bank));
    }

    ghost method Record(op: Op)
      requires main.Length == copy.Length == SECTOR_SIZE && main != copy && flash == ApplyAll(start, issued)
      requires main[..] == Apply(flash, op).main && copy[..] == Apply(flash, op).copy
      modifies this
      ensures Valid() && flash == Apply(old(flash), op) && issued == old(issued) + [op]
    {
      ApplyLast(start, issued, op);
      flash := Apply(flash, op);
      issued := issued + [op];
    }

    /** Is an erase needed to write `source` here? */
    method FlashVerifyEraseNeed(destination: nat, source: seq<Byte>) returns (need: bool)
      requires Valid() && destination + |source| <= SECTOR_SIZE
      ensures need == !LooksProgrammable(flash.main[destination..destination + |source|], source)
    {
      ghost var stored := flash.main[destination..destination + |source|];
      var oldChecksum: Byte, newChecksum: Byte := 0, 0;
      var i := 0;
      while i < |source|
        invariant 0 <= i <= |source|
        invariant forall j :: 0 <= j < i ==> Fits(stored[j], source[j])
        invariant oldChecksum == Checksum(stored[..i]) && newChecksum == Checksum(source[..i])
      {
        var newValue, oldValue := source[i], main[destination + i];
        assert oldValue == stored[i];
        DiffMask(oldValue, newValue);
        if (oldValue ^ newValue) & newValue != 0 {
          return true;
        }
        ChecksumStep(stored, i);
        ChecksumStep(source, i);
        newChecksum := Mix(newChecksum, newValue);
        oldChecksum := Mix(oldChecksum, oldValue);
        i := i + 1;
      }
      assert stored[..i] == stored && source[..i] == source;
      DiffMask(oldChecksum, newChecksum);
      need := (oldChecksum ^ newChecksum) & newChecksum != 0;
    }

    /** The loop over the payload, which keeps a running checksum. */
    method PutBytes(bank: Bank, destination: nat, source: seq<Byte>) returns (checksum: Byte)
      requires Valid() && destination + |source| < SECTOR_SIZE
      modifies this, main, copy
      ensures Valid() && issued == old(issued) + RecordOps(bank, destination, source) && checksum == Checksum(source)
      ensures bank.InCopy? ==> flash.main == old(flash).main
    {
      hide Mix, Program, Apply, ApplyAll, Checksum, ProgramAt;
      ghost var ops := RecordOps(bank, destination, source);
      checksum := 0;
      NoChecksum();
      var i := 0;
      assert source[..0] == [];
      while i < |source|
        invariant 0 <= i <= |source|
        invariant checksum == Checksum(source[..i])
        invariant Valid() && issued == old(issued) + ops[..i]
        invariant bank.InCopy? ==> flash.main == old(flash).main
      {
        checksum := Mix(checksum, source[i]);
        ChecksumStep(source, i);
        TakeNext(old(issued), ops, i);
        FlashProgram(bank, destination + i, [source[i]]);
        i := i + 1;
      }
      assert source[..i] == source && ops[..i] == ops;
    }

    method MemcpyToFlashWithChecksum(bank: Bank, destination: nat, source: seq<Byte>)
      requires Valid() && destination + |source| < SECTOR_SIZE
      modifies this, main, copy
      ensures Valid() && issued == old(issued) + PutOps(bank, destination, source)
      ensures bank.InCopy? ==> flash.main == old(flash).main
    {
      hide Program, Apply, ApplyAll, Checksum, ProgramAt;
      var checksum := PutBytes(bank, destination, source);
      FlashProgram(bank, destination + |source|, [checksum]);
      Append(old(issued), RecordOps(bank, destination, source), [ProgramAt(bank, destination + |source|, [checksum])]);
    }

    method MemcpyFromFlashWithChecksum(source: nat, size: nat) returns (ok: bool, destination: seq<Byte>)
      requires Valid() && source + size < SECTOR_SIZE
      ensures destination == flash.main[source..source + size] && ok == Intact(flash.main, source, size)
      ensures forall was: Sector :: OneByteApart(was, flash.main, source, size) && Intact(was, source, size) ==> !ok
    {
      var checksum: Byte := 0;
      destination := [];
      var i := 0;
      while i < size
        invariant 0 <= i <= size
        invariant destination == flash.main[source..source + i] && checksum == Checksum(destination)
      {
        var data := main[source + i];
        checksum := Mix(checksum, data);
        assert (destination + [data])[..i] == destination;
        destination := destination + [data];
        i := i + 1;
      }
      ok := checksum == main[source + size];
      forall was: Sector | OneByteApart(was, flash.main, source, size) && Intact(was, source, size) ensures !ok {
        DamageFound(was, flash.main, source, size);
      }
    }

    method CopyFromMainToCopy(start: nat, end: nat)
      requires Valid() && start + 4 * Words4(start, end) <= SECTOR_SIZE
      modifies this, main, copy
      ensures Valid() && issued == old(issued) + CopyOps(old(flash).main, start, Words4(start, end))
      ensures flash.main == old(flash).main
    {
      hide Program, ApplyAll;
      ghost var ops := CopyOps(flash.main, start, Words4(start, end));
      var i := 0;
      while start + 4 * i < end
        invariant 0 <= i <= |ops|
        invariant Valid() && issued == old(issued) + ops[..i]
        invariant flash.main == old(flash).main
      {
        var word := main[start + 4 * i..start + 4 * i + 4];
        assert word == flash.main[start + 4 * i..start + 4 * i + 4];
        TakeNext(old(issued), ops, i);
        FlashProgram(InCopy, start + 4 * i, word);
        i := i + 1;
      }
      assert ops[..i] == ops;
    }

    method RestoreMainSector()
      requires Valid()
      modifies this, main, copy
      ensures Valid() && issued == old(issued) + RestoreOps(old(flash).copy)
    {
      hide Program, ApplyAll;
      ghost var ops := RestoreOps(flash.copy);
      var i := 0;
      while i < RESTORE_WORDS
        invariant 0 <= i <= RESTORE_WORDS
        invariant Valid() && issued == old(issued) + ops[..i]
        invariant flash.copy == old(flash).copy
      {
        var word := copy[4 * i..4 * i + 4];
        assert word == flash.copy[4 * i..4 * i + 4];
        TakeNext(old(issued), ops, i);
        FlashProgram(InMain, 4 * i, word);
        i := i + 1;
      }
      assert ops[..i] == ops;
    }

    /** The second half of a recovery: the copy is no longer needed. */
    method FinishRecovery()
      requires Valid()
      modifies this, main, copy
      ensures Valid() && issued == old(issued) + FinishOps
    {
      DeleteSector(InCopy);
      FlashProgram(InMain, STATUS_OFFSET, COPY_SECTOR_CLEARED);
    }

    method RestoreDefaultSectorStatus()
      requires Valid()
      modifies this, main, copy
      ensures Valid() && issued == old(issued) + RecoveryOps(old(flash))
    {
      hide Program, ApplyAll;
      var status := main[STATUS_OFFSET..STATUS_OFFSET + 4];
      assert status == Status(flash);
      Words(flash);
      if status == MAIN_SECTOR_COPIED {
        DeleteSector(InMain);
        RestoreMainSector();
        FinishRecovery();
      } else if status == MAIN_SECTOR_ERASED {
        RestoreMainSector();
        FinishRecovery();
      } else if status == MAIN_SECTOR_RESTORED {
        FinishRecovery();
      } else if status != COPY_SECTOR_CLEARED {
        DeleteSector(InMain);
        DeleteSector(InCopy);
      }
    }

    /** Marks the copy built from flash contents f by `build`, and recovers from it. */
    method MarkAndRestore(ghost f: Memory, ghost before: seq<Op>, ghost build: seq<Op>)
      requires Valid() && f == ApplyAll(start, before) && issued == before + build
      modifies this, main, copy
      ensures Valid() && issued == before + UpdateOps(f, build)
    {
      ghost var marked := build + [ProgramMain(STATUS_OFFSET, MAIN_SECTOR_COPIED)];
      FlashProgram(InMain, STATUS_OFFSET, MAIN_SECTOR_COPIED);
      Append(before, build, [ProgramMain(STATUS_OFFSET, MAIN_SECTOR_COPIED)]);
      Since(f, before, marked);
      RestoreDefaultSectorStatus();
      Append(before, marked, RecoveryOps(ApplyAll(f, marked)));
    }

    method CopyCoord(addr: nat, data: CoordData)
      requires Valid() && Slot(addr)
      modifies this, main, copy
      ensures Valid() && issued == old(issued) + CoordBuild(old(flash).main, addr, data)
    {
      hide Program, ApplyAll, PutOps, CopyOps;
      ghost var before, was := issued, flash.main;
      ghost var record := PutOps(InCopy, addr, data);
      ghost var below, above := CopyOps(was, 0, Words4(0, addr)), CopyOps(was, addr + COORD_STRIDE, Words4(addr + COORD_STRIDE, STATUS_OFFSET));
      assert CoordBuild(was, addr, data) == [EraseCopy] + record + below + above;
      DeleteSector(InCopy);
      MemcpyToFlashWithChecksum(InCopy, addr, data);
      CopyFromMainToCopy(0, addr);
      CopyFromMainToCopy(addr + COORD_STRIDE, STATUS_OFFSET);
      Regroup(before, [EraseCopy], record, below, above);
    }

    method SettingsWriteCoordData(select: nat, data: CoordData)
      requires Valid() && Selects(select)
      modifies this, main, copy
      ensures Valid() && issued == old(issued) + WriteCoordOps(old(flash), select, data)
    {
      var addr := CoordAddr(select);
      hide Program, ApplyAll, PutOps, CoordBuild, UpdateOps;
      var need := FlashVerifyEraseNeed(addr, data);
      if !need {
        MemcpyToFlashWithChecksum(InMain, addr, data);
      } else {
        CopyCoord(addr, data);
        MarkAndRestore(old(flash), old(issued), CoordBuild(old(flash).main, addr, data));
      }
    }

    /** Returns the record; if it is not intact, zeroes are returned and written in its place. */
    method SettingsReadCoordData(select: nat) returns (ok: bool, data: CoordData)
      requires Valid() && Selects(select)
      modifies this, main, copy
      ensures ok == Intact(old(flash).main, CoordAddr(select), COORD_SIZE)
      ensures data == if ok then StoredCoord(old(flash).main, select) else ZeroVector()
      ensures Valid() && issued == old(issued) + if ok then [] else WriteCoordOps(old(flash), select, ZeroVector())
    {
      var stored;
      ok, stored := MemcpyFromFlashWithChecksum(CoordAddr(select), COORD_SIZE);
      data := stored;
      if !ok {
        data := ZeroVector();
        SettingsWriteCoordData(select, data);
      }
    }

    method CopyGlobal(settings: seq<Byte>)
      requires Valid() && GLOBAL_OFFSET + |settings| < PARAMETERS_OFFSET
      modifies this, main, copy
      ensures Valid() && issued == old(issued) + GlobalBuild(old(flash).main, settings)
    {
      hide Program, ApplyAll, PutOps, CopyOps;
      ghost var before, was := issued, flash.main;
      ghost var version, record := [ProgramCopy(0, [SETTINGS_VERSION])], PutOps(InCopy, GLOBAL_OFFSET, settings);
      ghost var above := CopyOps(was, PARAMETERS_OFFSET, Words4(PARAMETERS_OFFSET, STATUS_OFFSET));
      assert GlobalBuild(was, settings) == [EraseCopy] + version + record + above;
      DeleteSector(InCopy);
      FlashProgram(InCopy, 0, [SETTINGS_VERSION]);
      MemcpyToFlashWithChecksum(InCopy, GLOBAL_OFFSET, settings);
      CopyFromMainToCopy(PARAMETERS_OFFSET, STATUS_OFFSET);
      Regroup(before, [EraseCopy], version, record, above);
    }

    method WriteGlobalSettings(settings: seq<Byte>)
      requires Valid() && GLOBAL_OFFSET + |settings| < PARAMETERS_OFFSET
      modifies this, main, copy
      ensures Valid() && issued == old(issued) + WriteGlobalOps(old(flash), settings)
    {
      hide Program, ApplyAll, PutOps, CopyOps, GlobalBuild, UpdateOps;
      var need := FlashVerifyEraseNeed(0, settings);
      if !need {
        FlashProgram(InMain, 0, [SETTINGS_VERSION]);
        MemcpyToFlashWithChecksum(InMain, GLOBAL_OFFSET, settings);
        Append(old(issued), [ProgramMain(0, [SETTINGS_VERSION])], PutOps(InMain, GLOBAL_OFFSET, settings));
      } else {
        CopyGlobal(settings);
        MarkAndRestore(old(flash), old(issued), GlobalBuild(old(flash).main, settings));
      }
    }
  }
}
