/**
 * The mindreader's archiver selector: for each block it stores, it decides whether the block
 * goes to the one-block archiver, to the merge archiver, or (once, at a one-block to merge
 * handoff) to both; on the very first block it may replay a partial merge file left behind
 * by a previous run.
 *
 * The archivers are modelled by the calls made to them: one log of `Delivery` values, in call
 * order, and a set `refused` of the calls whose `StoreBlock` returns an error. The working
 * directory is a `WorkDir` value, and its side effects are a log of `FsOp` values.
 */
module ArchiverSelector {
  import opened Wrappers

  /** Block numbers and the LIB are Go `uint64` values. */
  const Uint64Modulus: nat := 0x1_0000_0000_0000_0000
  type Uint64 = n: nat | n < Uint64Modulus

  /** Mode changes happen only at block numbers that are multiples of this. */
  const BoundaryInterval: nat := 100
  /** A block at least this far behind the last irreversible block may be merged. */
  const LibSafetyMargin: nat := 100

  /** A block: its number and its production time (in the same unit as the clock `now`). */
  datatype Block = Block(num: Uint64, time: int)

  datatype ArchiverId = OneBlock | Merge

  /** One call of `StoreBlock` on an archiver. */
  datatype Delivery = Delivery(to: ArchiverId, block: Block)

  /** The selector's configuration: `bstream.GetProtocolFirstStreamableBlock` is `firstStreamable`. */
  datatype Config = Config(batchMode: bool, mergeThresholdBlockAge: int, firstStreamable: Uint64)

  // ---------------------------------------------------------------------------------------
  // The routing policy

  /**
   * shouldSendToMergeArchiver: merge in batch mode, when the block is older than the threshold,
   * or when it is at least 100 blocks behind the last seen LIB. The sum `num + 100` is a uint64
   * addition and wraps modulo 2^64.
   */
  function ShouldMerge(cfg: Config, b: Block, now: int, lastSeenLIB: Uint64): (r: bool)
    ensures b.num + LibSafetyMargin < Uint64Modulus ==>
      (r <==> cfg.batchMode || now - b.time > cfg.mergeThresholdBlockAge
                            || b.num + LibSafetyMargin <= lastSeenLIB)
  {
    if cfg.batchMode then true
    else if now - b.time > cfg.mergeThresholdBlockAge then true
    else AddUint64(b.num, LibSafetyMargin) <= lastSeenLIB
  }

  /** Go's uint64 addition, which wraps modulo 2^64. */
  function AddUint64(x: Uint64, y: Uint64): Uint64
  {
    if x + y < Uint64Modulus then x + y else x + y - Uint64Modulus
  }

  /**
   * Near the top of the uint64 range the LIB test compares against the wrapped sum, which is
   * below 100: such a block merges whenever the last seen LIB is at least 99.
   */
  lemma ShouldMergeWrapsNearMax(cfg: Config, b: Block, now: int, lastSeenLIB: Uint64)
    requires Uint64Modulus - LibSafetyMargin <= b.num
    ensures ShouldMerge(cfg, b, now, lastSeenLIB)
      <==> cfg.batchMode || now - b.time > cfg.mergeThresholdBlockAge
           || b.num + LibSafetyMargin - Uint64Modulus <= lastSeenLIB
    ensures lastSeenLIB >= LibSafetyMargin - 1 ==> ShouldMerge(cfg, b, now, lastSeenLIB)
  {
  }

  /** A boundary block: a multiple of 100, or the protocol's first streamable block. */
  predicate IsBoundary(num: Uint64, firstStreamable: Uint64)
  {
    num % BoundaryInterval == 0 || num == firstStreamable
  }

  /** chooseArchiver */
  function Choose(merging: bool): (a: ArchiverId)
    ensures a == Merge <==> merging
  {
    if merging then Merge else OneBlock
  }

  // ---------------------------------------------------------------------------------------
  // Delivering blocks to the archivers

  /** The outcome of a run of `StoreBlock` calls: the calls made, and the error returned, if any. */
  datatype Sent = Sent(calls: seq<Delivery>, err: Option<Delivery>)

  /**
   * Calls `StoreBlock` for each delivery in turn, stopping at the first call that fails and
   * returning its error unchanged (the error is named by the failing call).
   */
  function SendInOrder(ds: seq<Delivery>, refused: set<Delivery>): Sent
    decreases |ds|
  {
    if ds == [] then Sent([], None)
    else if ds[0] in refused then Sent([ds[0]], Some(ds[0]))
    else
      var rest := SendInOrder(ds[1..], refused);
      Sent([ds[0]] + rest.calls, rest.err)
  }

  /**
   * The calls made are a prefix of those planned; with no error all of them were made and none
   * failed; an error is the last call made, which failed, after calls that all succeeded.
   */
  lemma {:induction false} SendInOrderStopsAtFirstError(ds: seq<Delivery>, refused: set<Delivery>)
    ensures var r := SendInOrder(ds, refused);
      && r.calls <= ds
      && (r.err.None? ==> r.calls == ds && forall d :: d in ds ==> d !in refused)
      && (r.err.Some? ==>
            && |r.calls| > 0
            && r.err.value == r.calls[|r.calls| - 1]
            && r.err.value in refused
            && forall d :: d in r.calls[..|r.calls| - 1] ==> d !in refused)
    decreases |ds|
  {
    if ds != [] && ds[0] !in refused {
      var rest := SendInOrder(ds[1..], refused);
      SendInOrderStopsAtFirstError(ds[1..], refused);
      assert ds == [ds[0]] + ds[1..];
      assert ([ds[0]] + rest.calls)[1..] == rest.calls;
      if rest.err.Some? {
        assert ([ds[0]] + rest.calls)[..|rest.calls|] == [ds[0]] + rest.calls[..|rest.calls| - 1];
      }
    }
  }

  /** The deliveries of `blocks`, in order, all to archiver `a`. */
  function To(a: ArchiverId, blocks: seq<Block>): (ds: seq<Delivery>)
    ensures |ds| == |blocks|
    ensures forall k :: 0 <= k < |ds| ==> ds[k] == Delivery(a, blocks[k])
  {
    seq(|blocks|, k requires 0 <= k < |blocks| => Delivery(a, blocks[k]))
  }

  // ---------------------------------------------------------------------------------------
  // Partial files in the working directory

  const PartialPrefix: string := "archiver_"
  const PartialSuffix: string := ".partial"
  const PartialNameLength: nat := 27
  /** The starting block number sits at characters [9:19] of a partial file's name. */
  const NumberStart: nat := 9
  const NumberEnd: nat := 19

  predicate IsDigit(c: char)
  {
    '0' <= c <= '9'
  }

  predicate AllDigits(s: string)
  {
    forall k :: 0 <= k < |s| ==> IsDigit(s[k])
  }

  function Pow10(n: nat): (p: nat)
    ensures p >= 1
  {
    if n == 0 then 1 else 10 * Pow10(n - 1)
  }

  /** The base-10 value of a string of digits, most significant first. */
  function DecimalValue(s: string): (n: nat)
    requires AllDigits(s)
    ensures n < Pow10(|s|)
  {
    if s == [] then 0
    else DecimalValue(s[..|s| - 1]) * 10 + (s[|s| - 1] as int - '0' as int)
  }

  /** strconv.ParseUint(s, 10, 64): digits only, not empty, and below 2^64. */
  function ParseUint10(s: string): (r: Option<Uint64>)
    ensures r.Some? ==> s != [] && AllDigits(s) && r.value == DecimalValue(s)
    ensures s != [] && AllDigits(s) && DecimalValue(s) < Uint64Modulus ==> r.Some?
  {
    if s != [] && AllDigits(s) && DecimalValue(s) < Uint64Modulus then Some(DecimalValue(s)) else None
  }

  /**
   * The name check of loadLastPartial: a name of length 27 whose characters [9:19] parse as a
   * base-10 uint64. Ten digits always fit in a uint64, so the check comes down to the length and
   * the digits.
   */
  function PartialNumber(name: string): (r: Option<Uint64>)
    ensures r.Some? <==> |name| == PartialNameLength && AllDigits(name[NumberStart..NumberEnd])
    ensures r.Some? ==> r.value == DecimalValue(name[NumberStart..NumberEnd])
  {
    if |name| != PartialNameLength then None
    else
      var digits := name[NumberStart..NumberEnd];
      assert Pow10(|digits|) == 10_000_000_000 by { assert |digits| == 10; }
      ParseUint10(digits)
  }

  /** The names `filepath.Glob(workDir/archiver_*.partial)` returns. */
  predicate Globbed(name: string)
  {
    && |PartialPrefix| + |PartialSuffix| <= |name|
    && PartialPrefix <= name
    && name[|name| - |PartialSuffix|..] == PartialSuffix
  }

  /** The `width`-digit, zero-padded decimal form of `n` (modulo 10^width). */
  function PaddedDecimal(n: nat, width: nat): (s: string)
    ensures |s| == width && AllDigits(s)
  {
    if width == 0 then [] else PaddedDecimal(n / 10, width - 1) + [('0' as int + n % 10) as char]
  }

  lemma {:induction false} PaddedDecimalValue(n: nat, width: nat)
    requires n < Pow10(width)
    ensures DecimalValue(PaddedDecimal(n, width)) == n
  {
    if width > 0 {
      var s := PaddedDecimal(n, width);
      PaddedDecimalValue(n / 10, width - 1);
      assert s[..|s| - 1] == PaddedDecimal(n / 10, width - 1);
    }
  }

  /** The name of the partial file whose segment starts at block `n`, e.g. archiver_0000000150.partial. */
  function PartialName(n: nat): (name: string)
  {
    PartialPrefix + PaddedDecimal(n, 10) + PartialSuffix
  }

  /** Naming a partial file and reading its number back are inverse; the name is also globbed. */
  lemma PartialNameRoundTrip(n: nat)
    requires n < Pow10(10)
    ensures Globbed(PartialName(n))
    ensures PartialNumber(PartialName(n)) == Some(n)
  {
    var name := PartialName(n);
    assert name[NumberStart..NumberEnd] == PaddedDecimal(n, 10);
    PaddedDecimalValue(n, 10);
    assert name[|name| - |PartialSuffix|..] == PartialSuffix;
  }

  /** How a block reader's stream ends: with io.EOF, or with another error. */
  datatype StreamEnd = Eof | ReadFailure

  /**
   * What successive `Read` calls on a block reader return: `results` are those that came
   * with a nil error, `last` the block (possibly nil) that came with the final EOF or error.
   */
  datatype Stream = Stream(results: seq<Option<Block>>, last: Option<Block>, end: StreamEnd)

  /** What happens when loadLastPartial opens a file and wraps it in a block reader. */
  datatype Content = Unopenable | ReaderFails | Decodes(stream: Stream)

  datatype PartialFile = PartialFile(name: string, content: Content)

  /** The working directory: whether the glob fails, and its entries in the order the glob lists them. */
  datatype WorkDir = WorkDir(globFails: bool, entries: seq<PartialFile>)

  /** A file system call of loadLastPartial: os.Open or os.Remove. */
  datatype FsOp = Open(name: string) | Remove(name: string)

  /** The non-nil blocks among `results`, in order. */
  function Present(results: seq<Option<Block>>): (blocks: seq<Block>)
    ensures |blocks| <= |results|
    ensures blocks == [] <==> forall k :: 0 <= k < |results| ==> results[k].None?
  {
    if results == [] then []
    else
      var init := results[..|results| - 1];
      var last := results[|results| - 1];
      assert forall k :: 0 <= k < |init| ==> init[k] == results[k];
      Present(init) + (if last.Some? then [last.value] else [])
  }

  /**
   * The read loop of loadLastPartial: every non-nil block is appended, in order, until the
   * reader returns an error; `eof` says whether that error was io.EOF.
   */
  method ReadBlocks(s: Stream) returns (blocks: seq<Block>, eof: bool)
    ensures eof <==> s.end == Eof
    ensures blocks == Present(s.results + [s.last])
  {
    blocks := [];
    var i := 0;
    while true
      invariant 0 <= i <= |s.results|
      invariant blocks == Present(s.results[..i])
      decreases |s.results| - i
    {
      var blk: Option<Block>;
      var err: Option<StreamEnd>;
      if i < |s.results| {
        blk, err := s.results[i], None;
      } else {
        blk, err := s.last, Some(s.end);
      }
      if blk.Some? {
        blocks := blocks + [blk.value];
      }
      if err.Some? {
        assert s.results[..i] == s.results && (s.results + [s.last])[..|s.results|] == s.results;
        eof := err.value == Eof;
        return;
      }
      assert s.results[..i + 1][..i] == s.results[..i];
      i := i + 1;
    }
  }

  /** What loadLastPartial does with one globbed file: go on to the next file, or return. */
  datatype Visit = Continue(ops: seq<FsOp>) | Stop(blocks: seq<Block>, ops: seq<FsOp>)

  function VisitPartial(f: PartialFile, next: Uint64): Visit
  {
    match PartialNumber(f.name)
    case None => Continue([])
    case Some(saved) =>
      if saved != next then Continue([Remove(f.name)])
      else
        match f.content
        case Unopenable => Continue([Open(f.name), Remove(f.name)])
        case ReaderFails => Stop([], [Open(f.name)])
        case Decodes(s) =>
          Stop(if s.end == Eof then Present(s.results + [s.last]) else [], [Open(f.name), Remove(f.name)])
  }

  /** The blocks loadLastPartial returns ([] for nil) and the file system calls it makes. */
  datatype Recovery = Recovery(blocks: seq<Block>, ops: seq<FsOp>)

  function Scan(matches: seq<PartialFile>, next: Uint64): Recovery
    decreases |matches|
  {
    if matches == [] then Recovery([], [])
    else
      match VisitPartial(matches[0], next)
      case Continue(ops) =>
        var rest := Scan(matches[1..], next);
        Recovery(rest.blocks, ops + rest.ops)
      case Stop(blocks, ops) => Recovery(blocks, ops)
  }

  /** The names that pass the glob, in the directory's order. */
  function Glob(entries: seq<PartialFile>): seq<PartialFile>
  {
    if entries == [] then []
    else (if Globbed(entries[0].name) then [entries[0]] else []) + Glob(entries[1..])
  }

  /** The glob returns exactly the directory entries whose names fit the pattern. */
  lemma {:induction false} GlobSelects(entries: seq<PartialFile>)
    ensures forall f :: f in Glob(entries) <==> f in entries && Globbed(f.name)
  {
    if entries != [] {
      GlobSelects(entries[1..]);
      assert entries == [entries[0]] + entries[1..];
    }
  }

  /** loadLastPartial(next): a failing glob is a nil result. */
  function PartialRecovery(dir: WorkDir, next: Uint64): Recovery
  {
    if dir.globFails then Recovery([], []) else Scan(Glob(dir.entries), next)
  }

  /** A file that makes the scan return. */
  predicate Stops(f: PartialFile, next: Uint64)
  {
    VisitPartial(f, next).Stop?
  }

  /** Concatenation regrouped; spelled out where the solver would otherwise search for it. */
  lemma Associative<T>(a: seq<T>, b: seq<T>, c: seq<T>)
    ensures (a + b) + c == a + (b + c)
  {
  }

  /** The scan returns at a file exactly when its number is `next` and it can be opened. */
  lemma StopsIff(f: PartialFile, next: Uint64)
    ensures Stops(f, next) <==> PartialNumber(f.name) == Some(next) && !f.content.Unopenable?
  {
  }

  /** When no file stops the scan, loadLastPartial returns nil after visiting every file. */
  lemma {:induction false} NoStopScansAll(m: seq<PartialFile>, next: Uint64)
    requires forall j :: 0 <= j < |m| ==> !Stops(m[j], next)
    ensures Scan(m, next).blocks == []
  {
    if m != [] {
      NoStopScansAll(m[1..], next);
    }
  }

  /**
   * The first file that stops the scan decides the result: its blocks are returned, after the
   * file system calls made for the files before it and for it.
   */
  lemma {:induction false} FirstStopDecides(m: seq<PartialFile>, next: Uint64, i: nat)
    requires i < |m| && Stops(m[i], next)
    requires forall j :: 0 <= j < i ==> !Stops(m[j], next)
    ensures Scan(m, next).blocks == VisitPartial(m[i], next).blocks
    ensures Scan(m, next).ops == Scan(m[..i], next).ops + VisitPartial(m[i], next).ops
  {
    if i > 0 {
      assert m[1..][..i - 1] == m[..i][1..];
      FirstStopDecides(m[1..], next, i - 1);
    }
  }

  /** Scanning one more file after files that do not stop the scan. */
  lemma {:induction false} ScanAppend(p: seq<PartialFile>, f: PartialFile, next: Uint64)
    requires forall j :: 0 <= j < |p| ==> !Stops(p[j], next)
    ensures Scan(p + [f], next).ops == Scan(p, next).ops + VisitPartial(f, next).ops
    decreases |p|
  {
    if p == [] {
      assert [f][1..] == [];
    } else {
      assert (p + [f])[0] == p[0] && (p + [f])[1..] == p[1..] + [f];
      ScanAppend(p[1..], f, next);
    }
  }

  /**
   * Decoding the file that stops the scan: blocks read to EOF are returned and the file
   * removed; a read error removes the file and returns nil; a reader-factory error returns nil
   * and leaves the file in place.
   */
  lemma DecodeOutcomes(m: seq<PartialFile>, next: Uint64, i: nat)
    requires i < |m| && Stops(m[i], next)
    requires forall j :: 0 <= j < i ==> !Stops(m[j], next)
    ensures var r := Scan(m, next); var name := m[i].name;
      match m[i].content
      case Unopenable => false
      case ReaderFails => r.blocks == [] && r.ops == Scan(m[..i], next).ops + [Open(name)]
      case Decodes(s) =>
        && r.blocks == (if s.end == Eof then Present(s.results + [s.last]) else [])
        && r.ops == Scan(m[..i], next).ops + [Open(name), Remove(name)]
  {
    FirstStopDecides(m, next, i);
  }

  /**
   * Only well-named files are touched, and only a file whose number is `next` is opened; so a
   * badly named file is never removed and a stale file is never opened.
   */
  lemma {:induction false} ScanTouchesOnlyWellNamed(m: seq<PartialFile>, next: Uint64)
    ensures forall op :: op in Scan(m, next).ops ==> PartialNumber(op.name).Some?
    ensures forall op :: op in Scan(m, next).ops && op.Open? ==> PartialNumber(op.name) == Some(next)
  {
    if m != [] {
      ScanTouchesOnlyWellNamed(m[1..], next);
    }
  }

  /** A stale file (a well-formed number other than `next`) reached by the scan is removed. */
  lemma {:induction false} StaleFileRemoved(m: seq<PartialFile>, next: Uint64, i: nat)
    requires i < |m|
    requires PartialNumber(m[i].name).Some? && PartialNumber(m[i].name) != Some(next)
    requires forall j :: 0 <= j < i ==> !Stops(m[j], next)
    ensures Remove(m[i].name) in Scan(m, next).ops
    ensures Open(m[i].name) !in Scan(m, next).ops
  {
    ScanTouchesOnlyWellNamed(m, next);
    if i > 0 {
      StaleFileRemoved(m[1..], next, i - 1);
    }
  }

  // ---------------------------------------------------------------------------------------
  // StoreBlock as a state transition

  datatype Flags = Flags(firstBlockPassed: bool, firstBoundaryPassed: bool, currentlyMerging: bool)

  const Initial: Flags := Flags(false, false, false)

  /** Once a boundary has passed while producing one-block files, the selector never merges again. */
  predicate Pinned(f: Flags)
  {
    f.firstBoundaryPassed && !f.currentlyMerging
  }

  /** Flags a selector can be in: no boundary passes before the first block. */
  predicate Reachable(f: Flags)
  {
    f.firstBoundaryPassed ==> f.firstBlockPassed
  }

  /** The boundary block at a one-block to merge switch, the one block sent to both archivers. */
  predicate IsHandoff(cfg: Config, f: Flags, b: Block, now: int, lastSeenLIB: Uint64)
  {
    && !Pinned(f)
    && f.firstBlockPassed
    && IsBoundary(b.num, cfg.firstStreamable)
    && !f.currentlyMerging
    && ShouldMerge(cfg, b, now, lastSeenLIB)
  }

  /**
   * The routing decision of one StoreBlock call: the new flags, the archiver calls to make in
   * order, and the file system calls made while recovering.
   */
  datatype Plan = Plan(flags: Flags, deliveries: seq<Delivery>, ops: seq<FsOp>)

  /**
   * StoreBlock's decision for block `b`, with the clock at `now` and the poller's last seen LIB
   * at `lastSeenLIB`.
   */
  function Route(cfg: Config, f: Flags, b: Block, now: int, lastSeenLIB: Uint64, dir: WorkDir): Plan
  {
    if Pinned(f) then
      Plan(f, [Delivery(OneBlock, b)], [])
    else if !f.firstBlockPassed then
      var merging := ShouldMerge(cfg, b, now, lastSeenLIB);
      if IsBoundary(b.num, cfg.firstStreamable) then
        Plan(Flags(true, true, merging), [Delivery(Choose(merging), b)], [])
      else
        ReplayPlan(f, b, merging, dir)
    else if !IsBoundary(b.num, cfg.firstStreamable) then
      Plan(f, [Delivery(Choose(f.currentlyMerging), b)], [])
    else
      var merging := ShouldMerge(cfg, b, now, lastSeenLIB);
      var flags := Flags(f.firstBlockPassed, true, merging);
      if !f.currentlyMerging && merging then
        Plan(flags, [Delivery(OneBlock, b), Delivery(Merge, b)], [])
      else
        Plan(flags, [Delivery(Choose(merging), b)], [])
  }

  /**
   * The first block is not a boundary: the blocks of the partial file, then the live block, go
   * to the chosen archiver; a nil recovery means one-block mode.
   */
  function ReplayPlan(f: Flags, b: Block, merging: bool, dir: WorkDir): Plan
  {
    var recovery := PartialRecovery(dir, b.num);
    var merging' := recovery.blocks != [] && merging;
    Plan(Flags(true, f.firstBoundaryPassed, merging'), To(Choose(merging'), recovery.blocks + [b]), recovery.ops)
  }

  /** The effect of one StoreBlock call: new flags, archiver calls, error returned, file system calls. */
  datatype Outcome = Outcome(flags: Flags, calls: seq<Delivery>, err: Option<Delivery>, ops: seq<FsOp>)

  /** One StoreBlock call: the planned calls are made in order until one fails. */
  function Step(cfg: Config, f: Flags, b: Block, now: int, lastSeenLIB: Uint64,
                dir: WorkDir, refused: set<Delivery>): Outcome
  {
    var p := Route(cfg, f, b, now, lastSeenLIB, dir);
    var sent := SendInOrder(p.deliveries, refused);
    Outcome(p.flags, sent.calls, sent.err, p.ops)
  }

  lemma SendSingle(d: Delivery, refused: set<Delivery>)
    ensures SendInOrder([d], refused) == Sent([d], if d in refused then Some(d) else None)
  {
    assert [d][1..] == [];
  }

  lemma SendPair(d: Delivery, e: Delivery, refused: set<Delivery>)
    ensures SendInOrder([d, e], refused)
         == if d in refused then Sent([d], Some(d)) else Sent([d, e], if e in refused then Some(e) else None)
  {
    assert [d, e][1..] == [e];
    SendSingle(e, refused);
  }

  /**
   * What a call does to the flags: a pinned selector stays as it is, the first boundary once
   * passed stays passed, and after any call the first block has passed.
   */
  lemma StepFlags(cfg: Config, f: Flags, b: Block, now: int, lastSeenLIB: Uint64,
                  dir: WorkDir, refused: set<Delivery>)
    ensures var r := Step(cfg, f, b, now, lastSeenLIB, dir, refused);
      && (Pinned(f) ==> r.flags == f)
      && (f.firstBoundaryPassed ==> r.flags.firstBoundaryPassed)
      && (Reachable(f) ==> Reachable(r.flags) && r.flags.firstBlockPassed)
  {
  }

  /**
   * The plan of a call: the live block is planned last; every planned call goes to one
   * archiver, except at the handoff, where the block goes to the one-block archiver and then to
   * the merge archiver.
   */
  lemma RoutePlan(cfg: Config, f: Flags, b: Block, now: int, lastSeenLIB: Uint64, dir: WorkDir)
    ensures var ds := Route(cfg, f, b, now, lastSeenLIB, dir).deliveries;
      && |ds| > 0 && ds[|ds| - 1].block == b
      && (!IsHandoff(cfg, f, b, now, lastSeenLIB) ==> forall k :: 0 <= k < |ds| ==> ds[k].to == ds[0].to)
      && (IsHandoff(cfg, f, b, now, lastSeenLIB) ==> ds == [Delivery(OneBlock, b), Delivery(Merge, b)])
  {
  }

  /**
   * What a call delivers: with no error the live block is the last call; an error is the last
   * call, which failed; every call goes to one archiver, except at the handoff, where the block
   * goes to the one-block archiver and then, unless that failed, to the merge archiver.
   */
  lemma StepCalls(cfg: Config, f: Flags, b: Block, now: int, lastSeenLIB: Uint64,
                  dir: WorkDir, refused: set<Delivery>)
    ensures var r := Step(cfg, f, b, now, lastSeenLIB, dir, refused);
      && (r.err.None? ==> |r.calls| > 0 && r.calls[|r.calls| - 1].block == b)
      && (r.err.Some? ==> |r.calls| > 0 && r.err.value == r.calls[|r.calls| - 1] && r.err.value in refused)
      && (!IsHandoff(cfg, f, b, now, lastSeenLIB) ==>
            forall k :: 0 <= k < |r.calls| ==> r.calls[k].to == r.calls[0].to)
      && (IsHandoff(cfg, f, b, now, lastSeenLIB) ==>
            r.calls <= [Delivery(OneBlock, b), Delivery(Merge, b)])
  {
    var ds := Route(cfg, f, b, now, lastSeenLIB, dir).deliveries;
    RoutePlan(cfg, f, b, now, lastSeenLIB, dir);
    SendInOrderStopsAtFirstError(ds, refused);
    var r := Step(cfg, f, b, now, lastSeenLIB, dir, refused);
    assert r.calls <= ds;
    assert forall k :: 0 <= k < |r.calls| ==> r.calls[k] == ds[k];
  }

  /** The pinned fast path: one call to the one-block archiver, nothing else changes. */
  lemma PinnedFastPath(cfg: Config, f: Flags, b: Block, now: int, lastSeenLIB: Uint64,
                       dir: WorkDir, refused: set<Delivery>)
    requires Pinned(f)
    ensures var r := Step(cfg, f, b, now, lastSeenLIB, dir, refused);
      && r.flags == f
      && r.calls == [Delivery(OneBlock, b)]
      && r.err == (if Delivery(OneBlock, b) in refused then Some(Delivery(OneBlock, b)) else None)
      && r.ops == []
  {
    SendSingle(Delivery(OneBlock, b), refused);
  }

  /**
   * The first block is a boundary: the policy seeds the mode, the first boundary is passed, the
   * block goes once to the chosen archiver, and the working directory is not looked at.
   */
  lemma FirstBlockAtBoundary(cfg: Config, b: Block, now: int, lastSeenLIB: Uint64,
                             dir: WorkDir, refused: set<Delivery>)
    requires IsBoundary(b.num, cfg.firstStreamable)
    ensures var r := Step(cfg, Initial, b, now, lastSeenLIB, dir, refused);
      var merging := ShouldMerge(cfg, b, now, lastSeenLIB);
      && r.flags == Flags(true, true, merging)
      && r.calls == [Delivery(Choose(merging), b)]
      && r.ops == []
  {
    SendSingle(Delivery(Choose(ShouldMerge(cfg, b, now, lastSeenLIB)), b), refused);
  }

  /**
   * The first block is not a boundary: the partial file is recovered; a nil recovery forces
   * one-block mode; otherwise the recovered blocks go, in order, to the chosen archiver before
   * the live block; the first failing call stops the sequence and is returned.
   */
  lemma FirstBlockRecovers(cfg: Config, b: Block, now: int, lastSeenLIB: Uint64,
                           dir: WorkDir, refused: set<Delivery>)
    requires !IsBoundary(b.num, cfg.firstStreamable)
    ensures var r := Step(cfg, Initial, b, now, lastSeenLIB, dir, refused);
      var recovery := PartialRecovery(dir, b.num);
      var merging := recovery.blocks != [] && ShouldMerge(cfg, b, now, lastSeenLIB);
      && r.flags == Flags(true, false, merging)
      && r.ops == recovery.ops
      && r.calls <= To(Choose(merging), recovery.blocks + [b])
      && (r.err.None? ==> r.calls == To(Choose(merging), recovery.blocks + [b]))
      && (r.err.Some? ==>
            && |r.calls| > 0
            && r.err.value == r.calls[|r.calls| - 1] && r.err.value in refused
            && forall d :: d in r.calls[..|r.calls| - 1] ==> d !in refused)
  {
    SendInOrderStopsAtFirstError(Route(cfg, Initial, b, now, lastSeenLIB, dir).deliveries, refused);
  }

  /** Between boundaries the block goes once to the current archiver and the flags stay. */
  lemma BetweenBoundaries(cfg: Config, f: Flags, b: Block, now: int, lastSeenLIB: Uint64,
                          dir: WorkDir, refused: set<Delivery>)
    requires !Pinned(f) && f.firstBlockPassed && !IsBoundary(b.num, cfg.firstStreamable)
    ensures var r := Step(cfg, f, b, now, lastSeenLIB, dir, refused);
      && r.flags == f
      && r.calls == [Delivery(Choose(f.currentlyMerging), b)]
      && r.ops == []
  {
    SendSingle(Delivery(Choose(f.currentlyMerging), b), refused);
  }

  /**
   * A later boundary passes the first boundary and re-evaluates the policy; a switch from
   * one-block to merging sends the block to the one-block archiver and then, unless that call
   * failed, to the merge archiver; every other case is one call to the chosen archiver.
   */
  lemma LaterBoundary(cfg: Config, f: Flags, b: Block, now: int, lastSeenLIB: Uint64,
                      dir: WorkDir, refused: set<Delivery>)
    requires !Pinned(f) && f.firstBlockPassed && IsBoundary(b.num, cfg.firstStreamable)
    ensures var r := Step(cfg, f, b, now, lastSeenLIB, dir, refused);
      var merging := ShouldMerge(cfg, b, now, lastSeenLIB);
      && r.flags == Flags(true, true, merging)
      && r.ops == []
      && (!f.currentlyMerging && merging ==>
            r.calls == [Delivery(OneBlock, b)]
                       + (if Delivery(OneBlock, b) in refused then [] else [Delivery(Merge, b)]))
      && (f.currentlyMerging || !merging ==> r.calls == [Delivery(Choose(merging), b)])
  {
    SendPair(Delivery(OneBlock, b), Delivery(Merge, b), refused);
    SendSingle(Delivery(Choose(ShouldMerge(cfg, b, now, lastSeenLIB)), b), refused);
  }

  // ---------------------------------------------------------------------------------------
  // Sequences of StoreBlock calls

  /** One StoreBlock call's inputs. */
  datatype Input = Input(block: Block, now: int, lastSeenLIB: Uint64)

  /** After a run: the flags, every archiver call, and how many calls were handoffs. */
  datatype Trace = Trace(flags: Flags, calls: seq<Delivery>, handoffs: nat)

  function Blocks(inputs: seq<Input>): (bs: seq<Block>)
    ensures |bs| == |inputs|
    ensures forall k :: 0 <= k < |bs| ==> bs[k] == inputs[k].block
  {
    seq(|inputs|, k requires 0 <= k < |inputs| => inputs[k].block)
  }

  /** StoreBlock called on each input in turn, whatever each call returns. */
  function Run(cfg: Config, f: Flags, inputs: seq<Input>, dir: WorkDir, refused: set<Delivery>): Trace
    decreases |inputs|
  {
    if inputs == [] then Trace(f, [], 0)
    else
      var x := inputs[0];
      var o := Step(cfg, f, x.block, x.now, x.lastSeenLIB, dir, refused);
      var rest := Run(cfg, o.flags, inputs[1..], dir, refused);
      var h := if IsHandoff(cfg, f, x.block, x.now, x.lastSeenLIB) then 1 else 0;
      Trace(rest.flags, o.calls + rest.calls, h + rest.handoffs)
  }

  /** Once pinned, every later block goes to the one-block archiver only, and the flags never change. */
  lemma {:induction false} PinnedForever(cfg: Config, f: Flags, inputs: seq<Input>,
                                         dir: WorkDir, refused: set<Delivery>)
    requires Pinned(f)
    ensures Run(cfg, f, inputs, dir, refused) == Trace(f, To(OneBlock, Blocks(inputs)), 0)
  {
    if inputs != [] {
      PinnedFastPath(cfg, f, inputs[0].block, inputs[0].now, inputs[0].lastSeenLIB, dir, refused);
      PinnedForever(cfg, f, inputs[1..], dir, refused);
      assert To(OneBlock, Blocks(inputs))
          == [Delivery(OneBlock, inputs[0].block)] + To(OneBlock, Blocks(inputs[1..]));
    }
  }

  /** A run over `xs + ys` is the run over `xs` followed by the run over `ys` from where it ended. */
  lemma {:induction false} RunSplit(cfg: Config, f: Flags, xs: seq<Input>, ys: seq<Input>,
                                    dir: WorkDir, refused: set<Delivery>)
    decreases |xs|
    ensures var first := Run(cfg, f, xs, dir, refused);
      var second := Run(cfg, first.flags, ys, dir, refused);
      Run(cfg, f, xs + ys, dir, refused)
        == Trace(second.flags, first.calls + second.calls, first.handoffs + second.handoffs)
  {
    if xs != [] {
      var x := xs[0];
      var o := Step(cfg, f, x.block, x.now, x.lastSeenLIB, dir, refused);
      var h := if IsHandoff(cfg, f, x.block, x.now, x.lastSeenLIB) then 1 else 0;
      var tail := Run(cfg, o.flags, xs[1..], dir, refused);
      var second := Run(cfg, tail.flags, ys, dir, refused);
      assert Run(cfg, f, xs, dir, refused) == Trace(tail.flags, o.calls + tail.calls, h + tail.handoffs);
      assert (xs + ys)[0] == x && (xs + ys)[1..] == xs[1..] + ys;
      RunSplit(cfg, o.flags, xs[1..], ys, dir, refused);
      var joined := Run(cfg, o.flags, xs[1..] + ys, dir, refused);
      assert Run(cfg, f, xs + ys, dir, refused) == Trace(joined.flags, o.calls + joined.calls, h + joined.handoffs);
      Associative(o.calls, tail.calls, second.calls);
    } else {
      assert xs + ys == ys;
    }
  }

  /**
   * Never back to merging: once the flags after the first k calls are pinned, all the later
   * calls go to the one-block archiver and the selector stays pinned.
   */
  lemma NeverBackToMerging(cfg: Config, f: Flags, inputs: seq<Input>, k: nat,
                           dir: WorkDir, refused: set<Delivery>)
    requires k <= |inputs|
    requires Pinned(Run(cfg, f, inputs[..k], dir, refused).flags)
    ensures var all := Run(cfg, f, inputs, dir, refused);
      && all.calls == Run(cfg, f, inputs[..k], dir, refused).calls + To(OneBlock, Blocks(inputs[k..]))
      && Pinned(all.flags)
  {
    assert inputs == inputs[..k] + inputs[k..];
    RunSplit(cfg, f, inputs[..k], inputs[k..], dir, refused);
    PinnedForever(cfg, Run(cfg, f, inputs[..k], dir, refused).flags, inputs[k..], dir, refused);
  }

  /** The double delivery happens at most once in a selector's lifetime, and never after the first boundary. */
  lemma {:induction false} AtMostOneHandoff(cfg: Config, f: Flags, inputs: seq<Input>,
                                            dir: WorkDir, refused: set<Delivery>)
    requires Reachable(f)
    ensures Run(cfg, f, inputs, dir, refused).handoffs <= if f.firstBoundaryPassed then 0 else 1
    decreases |inputs|
  {
    if inputs != [] {
      var x := inputs[0];
      var o := Step(cfg, f, x.block, x.now, x.lastSeenLIB, dir, refused);
      StepFlags(cfg, f, x.block, x.now, x.lastSeenLIB, dir, refused);
      AtMostOneHandoff(cfg, o.flags, inputs[1..], dir, refused);
    }
  }

  /**
   * The handoff the merger needs: one-block files for 199, then at boundary 200 the policy says
   * merge (the block is older than the threshold), so 200 goes to both archivers, one-block first.
   */
  lemma HandoffAtFirstBoundary(dir: WorkDir)
    ensures var cfg := Config(false, 60, 1);
      var b199 := Block(199, 1000);
      var b200 := Block(200, 0);
      Run(cfg, Flags(true, false, false), [Input(b199, 1000, 0), Input(b200, 1000, 0)], dir, {})
        == Trace(Flags(true, true, true),
                 [Delivery(OneBlock, b199), Delivery(OneBlock, b200), Delivery(Merge, b200)], 1)
  {
    var cfg := Config(false, 60, 1);
    var inputs := [Input(Block(199, 1000), 1000, 0), Input(Block(200, 0), 1000, 0)];
    var f := Flags(true, false, false);
    BetweenBoundaries(cfg, f, Block(199, 1000), 1000, 0, dir, {});
    LaterBoundary(cfg, f, Block(200, 0), 1000, 0, dir, {});
    assert inputs[1..][1..] == [];
  }

  // ---------------------------------------------------------------------------------------
  // The selector object

  class Selector {
    const batchMode: bool
    const mergeThresholdBlockAge: int
    const firstStreamable: Uint64
    /** The working directory as the first StoreBlock call finds it. */
    const workDir: WorkDir
    /** The StoreBlock calls on the archivers that return an error. */
    const refused: set<Delivery>
    /** The archivers whose Init returns an error. */
    const initRefused: set<ArchiverId>

    var firstBlockPassed: bool
    var firstBoundaryPassed: bool
    var currentlyMerging: bool

    /** Every StoreBlock call made on either archiver, in order. */
    ghost var calls: seq<Delivery>
    /** Every Init call made on either archiver, in order. */
    ghost var inits: seq<ArchiverId>
    /** Every os.Open and os.Remove on the working directory, in order. */
    ghost var fsOps: seq<FsOp>

    function Cfg(): Config
      reads this
    {
      Config(batchMode, mergeThresholdBlockAge, firstStreamable)
    }

    function State(): Flags
      reads this
    {
      Flags(firstBlockPassed, firstBoundaryPassed, currentlyMerging)
    }

    /** NewArchiverSelector (the LIB poller it launches is not modelled). */
    constructor (batchMode: bool, mergeThresholdBlockAge: int, firstStreamable: Uint64,
                 workDir: WorkDir, refused: set<Delivery>, initRefused: set<ArchiverId>)
      ensures Cfg() == Config(batchMode, mergeThresholdBlockAge, firstStreamable)
      ensures this.workDir == workDir && this.refused == refused && this.initRefused == initRefused
      ensures State() == Initial
      ensures calls == [] && inits == [] && fsOps == []
    {
      this.batchMode := batchMode;
      this.mergeThresholdBlockAge := mergeThresholdBlockAge;
      this.firstStreamable := firstStreamable;
      this.workDir := workDir;
      this.refused := refused;
      this.initRefused := initRefused;
      firstBlockPassed, firstBoundaryPassed, currentlyMerging := false, false, false;
      calls, inits, fsOps := [], [], [];
    }

    /** Init: the one-block archiver first; its failure is returned and the merge archiver is not initialised. */
    method Init() returns (err: Option<ArchiverId>)
      modifies this`inits
      ensures OneBlock in initRefused ==> inits == old(inits) + [OneBlock] && err == Some(OneBlock)
      ensures OneBlock !in initRefused ==>
        && inits == old(inits) + [OneBlock, Merge]
        && err == (if Merge in initRefused then Some(Merge) else None)
    {
      inits := inits + [OneBlock];
      if OneBlock in initRefused {
        return Some(OneBlock);
      }
      inits := inits + [Merge];
      err := if Merge in initRefused then Some(Merge) else None;
    }

    /** One StoreBlock call on archiver `to`. */
    method Deliver(to: ArchiverId, b: Block) returns (err: Option<Delivery>)
      modifies this`calls
      ensures calls == old(calls) + [Delivery(to, b)]
      ensures err == if Delivery(to, b) in refused then Some(Delivery(to, b)) else None
    {
      calls := calls + [Delivery(to, b)];
      err := if Delivery(to, b) in refused then Some(Delivery(to, b)) else None;
    }

    /** One iteration of loadLastPartial's loop over the globbed files. */
    method VisitFile(f: PartialFile, next: Uint64) returns (stop: bool, blocks: seq<Block>)
      modifies this`fsOps
      ensures stop == VisitPartial(f, next).Stop?
      ensures stop ==> blocks == VisitPartial(f, next).blocks
      ensures fsOps == old(fsOps) + VisitPartial(f, next).ops
    {
      blocks := [];
      var saved := PartialNumber(f.name);
      if saved.None? {
        return false, [];
      }
      if saved.value != next {
        fsOps := fsOps + [Remove(f.name)];
        return false, [];
      }
      fsOps := fsOps + [Open(f.name)];
      match f.content {
        case Unopenable =>
          fsOps := fsOps + [Remove(f.name)];
          return false, [];
        case ReaderFails =>
          return true, [];
        case Decodes(s) =>
          var read, eof := ReadBlocks(s);
          fsOps := fsOps + [Remove(f.name)];
          if !eof {
            return true, [];
          }
          return true, read;
      }
    }

    /** loadLastPartial(next) */
    method LoadLastPartial(next: Uint64) returns (blocks: seq<Block>)
      modifies this`fsOps
      ensures blocks == PartialRecovery(workDir, next).blocks
      ensures fsOps == old(fsOps) + PartialRecovery(workDir, next).ops
    {
      if workDir.globFails {
        return [];
      }
      var matches := Glob(workDir.entries);
      var i := 0;
      while i < |matches|
        invariant 0 <= i <= |matches|
        invariant fsOps + Scan(matches[i..], next).ops == old(fsOps) + Scan(matches, next).ops
        invariant Scan(matches[i..], next).blocks == Scan(matches, next).blocks
      {
        assert matches[i..][1..] == matches[i + 1..];
        ghost var before := fsOps;
        ghost var visited := VisitPartial(matches[i], next).ops;
        var stop;
        stop, blocks := VisitFile(matches[i], next);
        if stop {
          return;
        }
        Associative(before, visited, Scan(matches[i + 1..], next).ops);
        i := i + 1;
      }
      return [];
    }

    /**
     * The replay loop of StoreBlock: the recovered blocks, then the live block, go to archiver
     * `to`; the first error stops the loop and is returned.
     */
    method Replay(to: ArchiverId, previous: seq<Block>, b: Block) returns (err: Option<Delivery>)
      modifies this`calls
      ensures var sent := SendInOrder(To(to, previous + [b]), refused);
        calls == old(calls) + sent.calls && err == sent.err
    {
      ghost var ds := To(to, previous + [b]);
      var i := 0;
      while i < |previous|
        invariant 0 <= i <= |previous|
        invariant calls + SendInOrder(ds[i..], refused).calls == old(calls) + SendInOrder(ds, refused).calls
        invariant SendInOrder(ds[i..], refused).err == SendInOrder(ds, refused).err
      {
        assert ds[i..][1..] == ds[i + 1..];
        err := Deliver(to, previous[i]);
        if err.Some? {
          return;
        }
        i := i + 1;
      }
      assert ds[i..] == [Delivery(to, b)];
      SendSingle(Delivery(to, b), refused);
      err := Deliver(to, b);
    }

    /** StoreBlock(b) with the clock at `now` and the poller's last seen LIB at `lastSeenLIB`. */
    method StoreBlock(b: Block, now: int, lastSeenLIB: Uint64) returns (err: Option<Delivery>)
      modifies this`firstBlockPassed, this`firstBoundaryPassed, this`currentlyMerging
      modifies this`calls, this`fsOps
      ensures var r := Step(Cfg(), old(State()), b, now, lastSeenLIB, workDir, refused);
        && State() == r.flags
        && calls == old(calls) + r.calls
        && fsOps == old(fsOps) + r.ops
        && err == r.err
    {
      if firstBoundaryPassed && !currentlyMerging {
        SendSingle(Delivery(OneBlock, b), refused);
        err := Deliver(OneBlock, b);
        return;
      }

      var isBoundary := IsBoundary(b.num, firstStreamable);

      if !firstBlockPassed {
        firstBlockPassed := true;
        currentlyMerging := ShouldMerge(Cfg(), b, now, lastSeenLIB);

        if isBoundary {
          firstBoundaryPassed := true;
          SendSingle(Delivery(Choose(currentlyMerging), b), refused);
          err := Deliver(Choose(currentlyMerging), b);
          return;
        }

        var previous := LoadLastPartial(b.num);
        if previous == [] {
          currentlyMerging := false;
        }

        err := Replay(Choose(currentlyMerging), previous, b);
        return;
      }

      if !isBoundary {
        SendSingle(Delivery(Choose(currentlyMerging), b), refused);
        err := Deliver(Choose(currentlyMerging), b);
        return;
      }

      firstBoundaryPassed := true;

      var previouslyMerging := currentlyMerging;
      currentlyMerging := ShouldMerge(Cfg(), b, now, lastSeenLIB);

      // The merger needs the boundary block as the upper bound of the segment it starts.
      var sendToBoth := !previouslyMerging && currentlyMerging;
      if sendToBoth {
        SendPair(Delivery(OneBlock, b), Delivery(Merge, b), refused);
        err := Deliver(OneBlock, b);
        if err.Some? {
          return;
        }
        err := Deliver(Merge, b);
        return;
      }

      SendSingle(Delivery(Choose(currentlyMerging), b), refused);
      err := Deliver(Choose(currentlyMerging), b);
    }
  }
}
