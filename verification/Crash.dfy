/** The write-ahead log as a sequence of atomic single-block writes: what is on the disk after
    any prefix of a commit or of a recovery, and what recovery makes of it. */
module Crash {
  import opened Blocks
  import opened Lists

  const LOGSTART := 2
  const NLOG := 30
  /** Header slots a transaction may use: log_write refuses to go past size - 1. */
  const MAXLOG := NLOG - 1

  /** The block of the superblock; block 0 is the boot block. */
  const SUPER := 1

  datatype Write = Write(blockno: nat, data: Block)

  predicate InLog(b: nat) {
    LOGSTART <= b < LOGSTART + NLOG
  }

  /** What no transaction may touch: the boot block and the superblock, by whose magic number the next
      boot knows that there is a file system. */
  predicate InFront(b: nat) { b == 0 || b == SUPER }

  ghost predicate SameFront(d: Disk, e: Disk) { e[0] == d[0] && e[SUPER] == d[SUPER] }

  /** The block numbers a header may name: distinct disk blocks outside the log itself and behind the
      superblock. */
  ghost predicate Targets(bl: seq<nat>) {
    && |bl| <= MAXLOG
    && (forall i :: 0 <= i < |bl| ==> bl[i] < FSSIZE && !InLog(bl[i]) && !InFront(bl[i]))
    && Distinct(bl)
  }

  /** Two disks agree on every block outside the log. */
  ghost predicate SameData(d: Disk, e: Disk) {
    forall b :: 0 <= b < FSSIZE && !InLog(b) ==> d[b] == e[b]
  }

  function Apply(d: Disk, ws: seq<Write>): (r: Disk)
    requires forall i :: 0 <= i < |ws| ==> ws[i].blockno < FSSIZE
  {
    if |ws| == 0 then d
    else Apply(d, ws[..|ws| - 1])[ws[|ws| - 1].blockno := ws[|ws| - 1].data]
  }

  // ---------- the header block ----------

  function HeaderCount(b: Block): Word { GetWord(b, 0) }

  /** The blocks named by the header of a disk whose count is within the log. */
  function HeaderBlocks(b: Block): (bl: seq<nat>)
    requires HeaderCount(b) <= MAXLOG
    ensures |bl| == HeaderCount(b)
  {
    seq(HeaderCount(b), i requires 0 <= i < HeaderCount(b) => GetWord(b, i + 1))
  }

  /** The header block after the count and the first `k` entries of `bl` were stored;
      entries past the count keep what they held. */
  function StoreEntries(b: Block, bl: seq<nat>, k: nat): (r: Block)
    requires k <= |bl| <= MAXLOG
    requires forall i :: 0 <= i < |bl| ==> bl[i] < FSSIZE
  {
    if k == 0 then SetWord(b, 0, |bl|) else SetWord(StoreEntries(b, bl, k - 1), k, bl[k - 1])
  }

  function EncodeHeader(b: Block, bl: seq<nat>): (r: Block)
    requires |bl| <= MAXLOG
    requires forall i :: 0 <= i < |bl| ==> bl[i] < FSSIZE
  {
    StoreEntries(b, bl, |bl|)
  }

  lemma {:induction false} StoredEntries(b: Block, bl: seq<nat>, k: nat)
    requires k <= |bl| <= MAXLOG
    requires forall i :: 0 <= i < |bl| ==> bl[i] < FSSIZE
    ensures GetWord(StoreEntries(b, bl, k), 0) == |bl|
    ensures forall i :: 0 <= i < k ==> GetWord(StoreEntries(b, bl, k), i + 1) == bl[i]
  {
    if k == 0 {
      GetSetWord(b, 0, |bl|, 0);
    } else {
      StoredEntries(b, bl, k - 1);
      var prior := StoreEntries(b, bl, k - 1);
      GetSetWord(prior, k, bl[k - 1], 0);
      forall i | 0 <= i < k
        ensures GetWord(StoreEntries(b, bl, k), i + 1) == bl[i]
      {
        GetSetWord(prior, k, bl[k - 1], i + 1);
      }
    }
  }

  /** Writing a header and reading it back gives the same list of blocks, whatever stale
      entries the block held before. */
  lemma HeaderRoundTrip(b: Block, bl: seq<nat>)
    requires |bl| <= MAXLOG
    requires forall i :: 0 <= i < |bl| ==> bl[i] < FSSIZE
    ensures HeaderCount(EncodeHeader(b, bl)) == |bl|
    ensures HeaderBlocks(EncodeHeader(b, bl)) == bl
  {
    StoredEntries(b, bl, |bl|);
  }

  lemma ClearedHeader(b: Block)
    ensures HeaderCount(EncodeHeader(b, [])) == 0
  {
    GetSetWord(b, 0, 0, 0);
  }

  // ---------- the writes of commit and of recovery ----------

  function LogWrites(vals: seq<Block>): (ws: seq<Write>)
    requires |vals| <= MAXLOG
    ensures |ws| == |vals|
  {
    seq(|vals|, i requires 0 <= i < |vals| => Write(LOGSTART + i + 1, vals[i]))
  }

  function InstallWrites(bl: seq<nat>, vals: seq<Block>): (ws: seq<Write>)
    requires |bl| == |vals|
    ensures |ws| == |vals|
  {
    seq(|vals|, i requires 0 <= i < |vals| => Write(bl[i], vals[i]))
  }

  /** The four steps of commit: log the blocks, write the header, install, clear the header. */
  ghost function CommitWrites(header: Block, bl: seq<nat>, vals: seq<Block>): (ws: seq<Write>)
    requires Targets(bl) && |bl| == |vals|
    ensures |ws| == 2 * |bl| + 2
    ensures forall i :: 0 <= i < |ws| ==> ws[i].blockno < FSSIZE
  {
    var head := EncodeHeader(header, bl);
    LogWrites(vals) + [Write(LOGSTART, head)] + InstallWrites(bl, vals)
    + [Write(LOGSTART, EncodeHeader(head, []))]
  }

  ghost predicate WellFormed(d: Disk) {
    && HeaderCount(d[LOGSTART]) <= MAXLOG
    && Targets(HeaderBlocks(d[LOGSTART]))
  }

  function LoggedValues(d: Disk, n: nat): (vals: seq<Block>)
    requires n <= MAXLOG
    ensures |vals| == n
  {
    seq(n, i requires 0 <= i < n => d[LOGSTART + i + 1])
  }

  /** Recovery: install whatever the header names, then clear the header. */
  ghost function RecoveryWrites(d: Disk): (ws: seq<Write>)
    requires WellFormed(d)
    ensures |ws| == HeaderCount(d[LOGSTART]) + 1
    ensures forall i :: 0 <= i < |ws| ==> ws[i].blockno < FSSIZE
  {
    var bl := HeaderBlocks(d[LOGSTART]);
    InstallWrites(bl, LoggedValues(d, |bl|)) + [Write(LOGSTART, EncodeHeader(d[LOGSTART], []))]
  }

  ghost function Recover(d: Disk): Disk
    requires WellFormed(d)
  {
    Apply(d, RecoveryWrites(d))
  }

  // ---------- what a sequence of writes leaves on the disk ----------

  lemma {:induction false} ApplyConcat(d: Disk, xs: seq<Write>, ys: seq<Write>)
    requires forall i :: 0 <= i < |xs| ==> xs[i].blockno < FSSIZE
    requires forall i :: 0 <= i < |ys| ==> ys[i].blockno < FSSIZE
    ensures Apply(d, xs + ys) == Apply(Apply(d, xs), ys)
  {
    if |ys| == 0 {
      assert xs + ys == xs;
    } else {
      var zs := ys[..|ys| - 1];
      ApplyConcat(d, xs, zs);
      assert (xs + ys)[..|xs + ys| - 1] == xs + zs;
    }
  }

  /** A block no write names keeps its contents. */
  lemma {:induction false} ApplyOther(d: Disk, ws: seq<Write>, b: nat)
    requires forall i :: 0 <= i < |ws| ==> ws[i].blockno < FSSIZE
    requires b < FSSIZE && forall i :: 0 <= i < |ws| ==> ws[i].blockno != b
    ensures Apply(d, ws)[b] == d[b]
  {
    if |ws| > 0 {
      ApplyOther(d, ws[..|ws| - 1], b);
    }
  }

  /** When the block numbers are distinct, write k is what its block holds at the end. */
  lemma {:induction false} ApplyAt(d: Disk, ws: seq<Write>, k: nat)
    requires forall i :: 0 <= i < |ws| ==> ws[i].blockno < FSSIZE
    requires forall i, j :: 0 <= i < j < |ws| ==> ws[i].blockno != ws[j].blockno
    requires k < |ws|
    ensures Apply(d, ws)[ws[k].blockno] == ws[k].data
  {
    if k < |ws| - 1 {
      ApplyAt(d, ws[..|ws| - 1], k);
    }
  }

  /** `e` is `d` with the transaction's blocks replaced, everywhere outside the log. */
  ghost predicate Installed(d: Disk, bl: seq<nat>, vals: seq<Block>, e: Disk)
    requires Targets(bl) && |bl| == |vals|
  {
    && (forall i :: 0 <= i < |bl| ==> e[bl[i]] == vals[i])
    && (forall b :: 0 <= b < FSSIZE && !InLog(b) && b !in bl ==> e[b] == d[b])
  }

  /** Any prefix of the installing writes touches only named blocks and no log block. */
  lemma InstallPrefix(d: Disk, bl: seq<nat>, vals: seq<Block>, k: nat)
    requires Targets(bl) && |bl| == |vals| && k <= |bl|
    ensures var ws := InstallWrites(bl, vals)[..k];
            && (forall i :: 0 <= i < |ws| ==> ws[i].blockno < FSSIZE)
            && var e := Apply(d, ws);
            && (forall i :: 0 <= i < k ==> e[bl[i]] == vals[i])
            && (forall b :: 0 <= b < FSSIZE && b !in bl ==> e[b] == d[b])
  {
    var ws := InstallWrites(bl, vals)[..k];
    DistinctPairs(bl);
    forall i | 0 <= i < k
      ensures Apply(d, ws)[bl[i]] == vals[i]
    {
      ApplyAt(d, ws, i);
      assert ws[i] == Write(bl[i], vals[i]);
    }
    forall b | 0 <= b < FSSIZE && b !in bl
      ensures Apply(d, ws)[b] == d[b]
    {
      ApplyOther(d, ws, b);
    }
  }

  /** Installing leaves the header and the logged values where they are. */
  lemma InstallKeepsLog(d: Disk, bl: seq<nat>, vals: seq<Block>, k: nat)
    requires Targets(bl) && |bl| == |vals| && k <= |bl|
    ensures var ws := InstallWrites(bl, vals)[..k];
            && (forall i :: 0 <= i < |ws| ==> ws[i].blockno < FSSIZE)
            && Apply(d, ws)[LOGSTART] == d[LOGSTART]
            && LoggedValues(Apply(d, ws), |bl|) == LoggedValues(d, |bl|)
  {
    hide GetWord, SetWord;
    InstallPrefix(d, bl, vals, k);
    var e := Apply(d, InstallWrites(bl, vals)[..k]);
    forall b | 0 <= b < FSSIZE && InLog(b)
      ensures e[b] == d[b]
    {
      assert b !in bl;
    }
  }

  /** Recovery of a well-formed disk installs exactly the logged blocks and empties the log. */
  lemma RecoverInstalls(d: Disk)
    requires WellFormed(d)
    ensures var bl := HeaderBlocks(d[LOGSTART]);
            Installed(d, bl, LoggedValues(d, |bl|), Recover(d))
    ensures HeaderCount(Recover(d)[LOGSTART]) == 0
  {
    hide GetWord, SetWord;
    var bl := HeaderBlocks(d[LOGSTART]);
    var vals := LoggedValues(d, |bl|);
    var ws := RecoveryWrites(d);
    InstallPrefix(d, bl, vals, |bl|);
    assert ws[..|ws| - 1] == InstallWrites(bl, vals) == InstallWrites(bl, vals)[..|bl|];
    ClearedHeader(d[LOGSTART]);
  }

  lemma RecoverClears(d: Disk)
    requires WellFormed(d)
    ensures HeaderCount(Recover(d)[LOGSTART]) == 0
  {
    hide GetWord, SetWord;
    RecoverInstalls(d);
  }

  // ---------- the front of the disk ----------

  lemma WritesKeepFront(d: Disk, ws: seq<Write>)
    requires forall i :: 0 <= i < |ws| ==> ws[i].blockno < FSSIZE && !InFront(ws[i].blockno)
    ensures SameFront(d, Apply(d, ws))
  {
    ApplyOther(d, ws, 0);
    ApplyOther(d, ws, SUPER);
  }

  /** A commit leaves boot block and superblock alone, wherever it is cut. */
  lemma CommitKeepsFront(d: Disk, bl: seq<nat>, vals: seq<Block>, k: nat)
    requires Targets(bl) && |bl| == |vals| && k <= 2 * |bl| + 2
    ensures SameFront(d, CutCommit(d, bl, vals, k))
  {
    hide EncodeHeader;
    WritesKeepFront(d, CommitWrites(d[LOGSTART], bl, vals)[..k]);
  }

  /** And so does a recovery. */
  lemma RecoveryKeepsFront(d: Disk, k: nat)
    requires WellFormed(d) && k <= |RecoveryWrites(d)|
    ensures SameFront(d, Apply(d, RecoveryWrites(d)[..k]))
  {
    hide EncodeHeader, GetWord;
    WritesKeepFront(d, RecoveryWrites(d)[..k]);
  }

  // ---------- crash atomicity ----------

  /** The disk after the first k writes of a commit that started with an empty header. */
  ghost function CutCommit(d: Disk, bl: seq<nat>, vals: seq<Block>, k: nat): Disk
    requires Targets(bl) && |bl| == |vals| && k <= 2 * |bl| + 2
  {
    Apply(d, CommitWrites(d[LOGSTART], bl, vals)[..k])
  }

  /** Before the header write the disk still looks as if no transaction had begun. */
  lemma CutBeforeHeader(d: Disk, bl: seq<nat>, vals: seq<Block>, k: nat)
    requires Targets(bl) && |bl| == |vals| && k <= |bl|
    ensures var e := CutCommit(d, bl, vals, k);
            && SameData(d, e) && e[LOGSTART] == d[LOGSTART]
            && forall i :: 0 <= i < k ==> e[LOGSTART + i + 1] == vals[i]
  {
    hide GetWord, SetWord;
    var ws := CommitWrites(d[LOGSTART], bl, vals)[..k];
    forall b | 0 <= b < FSSIZE && (!InLog(b) || b == LOGSTART)
      ensures Apply(d, ws)[b] == d[b]
    {
      ApplyOther(d, ws, b);
    }
    forall i | 0 <= i < k
      ensures Apply(d, ws)[LOGSTART + i + 1] == vals[i]
    {
      ApplyAt(d, ws, i);
      assert ws[i] == Write(LOGSTART + i + 1, vals[i]);
    }
  }

  /** The state at the commit point: header and log written, no data block touched. */
  lemma CutAtHeader(d: Disk, bl: seq<nat>, vals: seq<Block>)
    requires Targets(bl) && |bl| == |vals|
    ensures var e := CutCommit(d, bl, vals, |bl| + 1);
            && e[LOGSTART] == EncodeHeader(d[LOGSTART], bl)
            && LoggedValues(e, |bl|) == vals
            && SameData(d, e)
  {
    hide GetWord, SetWord;
    var ws := CommitWrites(d[LOGSTART], bl, vals);
    var n := |bl|;
    CutBeforeHeader(d, bl, vals, n);
    assert ws[..n + 1][..n] == ws[..n];
    assert ws[..n + 1][n] == Write(LOGSTART, EncodeHeader(d[LOGSTART], bl));
  }

  /** From the header write until the clearing write, the header names the transaction, the
      log holds its values, and the data blocks are the old ones with some prefix installed. */
  lemma CutAfterHeader(d: Disk, bl: seq<nat>, vals: seq<Block>, k: nat)
    requires Targets(bl) && |bl| == |vals| && |bl| < k <= 2 * |bl| + 1
    ensures var e := CutCommit(d, bl, vals, k);
            && e[LOGSTART] == EncodeHeader(d[LOGSTART], bl)
            && LoggedValues(e, |bl|) == vals
            && (forall i :: 0 <= i < k - |bl| - 1 ==> e[bl[i]] == vals[i])
            && (forall b :: 0 <= b < FSSIZE && !InLog(b) && b !in bl ==> e[b] == d[b])
  {
    hide GetWord, SetWord;
    var headed := CutCommit(d, bl, vals, |bl| + 1);
    CutAtHeader(d, bl, vals);
    CommitFromHeader(d, bl, vals, k);
    InstallPrefix(headed, bl, vals, k - |bl| - 1);
    InstallKeepsLog(headed, bl, vals, k - |bl| - 1);
  }

  lemma CommitFromHeader(d: Disk, bl: seq<nat>, vals: seq<Block>, k: nat)
    requires Targets(bl) && |bl| == |vals| && |bl| < k <= 2 * |bl| + 1
    ensures var inst := InstallWrites(bl, vals)[..k - |bl| - 1];
            && (forall i :: 0 <= i < |inst| ==> inst[i].blockno < FSSIZE)
            && CutCommit(d, bl, vals, k) == Apply(CutCommit(d, bl, vals, |bl| + 1), inst)
  {
    hide GetWord, SetWord;
    var ws := CommitWrites(d[LOGSTART], bl, vals);
    var inst := InstallWrites(bl, vals)[..k - |bl| - 1];
    assert ws[..k] == ws[..|bl| + 1] + inst;
    ApplyConcat(d, ws[..|bl| + 1], inst);
  }

  /** A disk with an empty header recovers to its own data. */
  lemma EmptyHeaderRecovers(d: Disk)
    requires HeaderCount(d[LOGSTART]) == 0
    ensures WellFormed(d) && SameData(d, Recover(d))
  {
    hide GetWord, SetWord;
    RecoverInstalls(d);
  }

  /** A disk whose header names the transaction and whose log holds its values recovers to the
      complete transaction. */
  lemma FullHeaderRecovers(d: Disk, bl: seq<nat>, vals: seq<Block>, e: Disk)
    requires Targets(bl) && |bl| == |vals|
    requires e[LOGSTART] == EncodeHeader(d[LOGSTART], bl) && LoggedValues(e, |bl|) == vals
    requires forall b :: 0 <= b < FSSIZE && !InLog(b) && b !in bl ==> e[b] == d[b]
    ensures WellFormed(e) && Installed(d, bl, vals, Recover(e))
  {
    hide GetWord, SetWord;
    HeaderRoundTrip(d[LOGSTART], bl);
    RecoverInstalls(e);
  }

  lemma InstalledSame(d: Disk, bl: seq<nat>, vals: seq<Block>, x: Disk, y: Disk)
    requires Targets(bl) && |bl| == |vals| && Installed(d, bl, vals, x) && SameData(x, y)
    ensures Installed(d, bl, vals, y)
  {
    hide GetWord, SetWord;
    forall i | 0 <= i < |bl|
      ensures y[bl[i]] == vals[i]
    {
      assert !InLog(bl[i]);
    }
  }

  /** The last write of commit changes the header block and nothing else. */
  lemma CutCommitLast(d: Disk, bl: seq<nat>, vals: seq<Block>)
    requires Targets(bl) && |bl| == |vals|
    ensures var full := CutCommit(d, bl, vals, 2 * |bl| + 1);
            CutCommit(d, bl, vals, 2 * |bl| + 2)
            == full[LOGSTART := EncodeHeader(EncodeHeader(d[LOGSTART], bl), [])]
  {
    hide GetWord, SetWord;
    var ws := CommitWrites(d[LOGSTART], bl, vals);
    var k := 2 * |bl| + 2;
    assert ws[..k][..k - 1] == ws[..k - 1];
  }

  lemma CommitCompletes(d: Disk, bl: seq<nat>, vals: seq<Block>)
    requires Targets(bl) && |bl| == |vals|
    ensures var e := CutCommit(d, bl, vals, 2 * |bl| + 2);
            Installed(d, bl, vals, e) && HeaderCount(e[LOGSTART]) == 0
  {
    hide GetWord, SetWord;
    CutAfterHeader(d, bl, vals, 2 * |bl| + 1);
    CutCommitLast(d, bl, vals);
    ClearedHeader(EncodeHeader(d[LOGSTART], bl));
    InstalledSame(d, bl, vals, CutCommit(d, bl, vals, 2 * |bl| + 1), CutCommit(d, bl, vals, 2 * |bl| + 2));
  }

  /** Crash atomicity of commit. Cut the commit after any number k of its block writes and let
      recovery run: outside the log the disk is the old one when the header write had not been
      done, and the complete new one when it had. The disk stays well formed throughout. */
  lemma CommitIsCrashAtomic(d: Disk, bl: seq<nat>, vals: seq<Block>, k: nat)
    requires HeaderCount(d[LOGSTART]) == 0
    requires Targets(bl) && |bl| == |vals| && k <= 2 * |bl| + 2
    ensures WellFormed(CutCommit(d, bl, vals, k))
    ensures var r := Recover(CutCommit(d, bl, vals, k));
            if k <= |bl| then SameData(d, r) else Installed(d, bl, vals, r)
  {
    hide GetWord, SetWord, CutCommit, Recover;
    var e := CutCommit(d, bl, vals, k);
    if k <= |bl| {
      CutBeforeHeader(d, bl, vals, k);
      EmptyHeaderRecovers(e);
    } else if k <= 2 * |bl| + 1 {
      CutAfterHeader(d, bl, vals, k);
      FullHeaderRecovers(d, bl, vals, e);
    } else {
      CommitCompletes(d, bl, vals);
      EmptyHeaderRecovers(e);
      InstalledSame(d, bl, vals, e, Recover(e));
    }
  }

  /** Recovery may itself be cut after any number of writes: what is left recovers to the
      same data. */
  lemma RecoveryIsIdempotent(d: Disk, k: nat)
    requires WellFormed(d) && k <= HeaderCount(d[LOGSTART]) + 1
    ensures var e := Apply(d, RecoveryWrites(d)[..k]);
            WellFormed(e) && SameData(Recover(e), Recover(d))
  {
    hide GetWord, SetWord;
    var n := HeaderCount(d[LOGSTART]);
    if k <= n {
      PartialRecovery(d, k);
    } else {
      assert RecoveryWrites(d)[..k] == RecoveryWrites(d);
      RecoverInstalls(d);
      EmptyHeaderRecovers(Recover(d));
    }
  }

  lemma PartialRecovery(d: Disk, k: nat)
    requires WellFormed(d) && k <= HeaderCount(d[LOGSTART])
    ensures var e := Apply(d, RecoveryWrites(d)[..k]);
            WellFormed(e) && SameData(Recover(e), Recover(d))
  {
    hide GetWord, SetWord;
    var bl := HeaderBlocks(d[LOGSTART]);
    var vals := LoggedValues(d, |bl|);
    assert RecoveryWrites(d)[..k] == InstallWrites(bl, vals)[..k];
    var e := Apply(d, RecoveryWrites(d)[..k]);
    InstallPrefix(d, bl, vals, k);
    InstallKeepsLog(d, bl, vals, k);
    RecoverInstalls(e);
    RecoverInstalls(d);
    InstalledAgain(d, bl, vals, e, Recover(e), Recover(d));
  }

  /** Installing over a partly installed disk gives the installed disk. */
  lemma InstalledAgain(d: Disk, bl: seq<nat>, vals: seq<Block>, part: Disk, x: Disk, y: Disk)
    requires Targets(bl) && |bl| == |vals|
    requires forall b :: 0 <= b < FSSIZE && !InLog(b) && b !in bl ==> part[b] == d[b]
    requires Installed(part, bl, vals, x) && Installed(d, bl, vals, y)
    ensures SameData(x, y)
  {
    hide GetWord, SetWord;
    forall b | 0 <= b < FSSIZE && !InLog(b)
      ensures x[b] == y[b]
    {
      if b in bl {
        var i :| 0 <= i < |bl| && bl[i] == b;
        assert x[bl[i]] == y[bl[i]];
      }
    }
  }

  /** The disk after a list of interrupted recoveries, each cut after the given number of writes
      (a number past the end lets that recovery finish). */
  ghost function Reboots(d: Disk, cuts: seq<nat>): Disk
    requires WellFormed(d)
    decreases |cuts|
  {
    if |cuts| == 0 then d
    else
      var ws := RecoveryWrites(d);
      var k := if cuts[0] < |ws| then cuts[0] else |ws|;
      var e := Apply(d, ws[..k]);
      RecoveryIsIdempotent(d, k);
      Reboots(e, cuts[1..])
  }

  /** However often and wherever recovery is interrupted, the completed recovery yields the
      same data. */
  lemma {:induction false} RebootsConverge(d: Disk, cuts: seq<nat>)
    requires WellFormed(d)
    ensures WellFormed(Reboots(d, cuts))
    ensures SameData(Recover(Reboots(d, cuts)), Recover(d))
    decreases |cuts|
  {
    hide GetWord, SetWord;
    if |cuts| > 0 {
      var ws := RecoveryWrites(d);
      var k := if cuts[0] < |ws| then cuts[0] else |ws|;
      RecoveryIsIdempotent(d, k);
      RebootsConverge(Apply(d, ws[..k]), cuts[1..]);
    }
  }

  // ---------- whole histories ----------

  /** One transaction in the life of a disk. `cut` is the number of commit writes done before a
      power failure (a number past the end means end_op returned); after a failure the machine
      reboots through the interrupted recoveries `cuts` and one that completes. */
  datatype Txn = Txn(bl: seq<nat>, vals: seq<Block>, cut: nat, cuts: seq<nat>)
  {
    ghost predicate Valid() {
      Targets(bl) && |bl| == |vals|
    }
    predicate Returned() {
      cut >= 2 * |bl| + 2
    }
    predicate Committed() {
      cut > |bl|
    }
  }

  ghost predicate Clean(d: Disk) {
    HeaderCount(d[LOGSTART]) == 0
  }

  ghost function RunTxn(d: Disk, t: Txn): (r: Disk)
    requires Clean(d) && t.Valid()
  {
    var k := if t.Returned() then 2 * |t.bl| + 2 else t.cut;
    CommitIsCrashAtomic(d, t.bl, t.vals, k);
    var e := CutCommit(d, t.bl, t.vals, k);
    if t.Returned() then e
    else
      RebootsConverge(e, t.cuts);
      Recover(Reboots(e, t.cuts))
  }

  /** One transaction, interrupted or not, leaves an empty log and is applied whole or not at
      all, according to whether its header write was done. */
  lemma TxnIsAtomic(d: Disk, t: Txn)
    requires Clean(d) && t.Valid()
    ensures var r := RunTxn(d, t);
            Clean(r) && if t.Committed() then Installed(d, t.bl, t.vals, r) else SameData(d, r)
  {
    hide GetWord, SetWord;
    if t.Returned() {
      CommitCompletes(d, t.bl, t.vals);
    } else {
      CommitIsCrashAtomic(d, t.bl, t.vals, t.cut);
      var e := CutCommit(d, t.bl, t.vals, t.cut);
      RebootsConverge(e, t.cuts);
      RecoverClears(Reboots(e, t.cuts));
      if t.Committed() {
        InstalledSame(d, t.bl, t.vals, Recover(e), RunTxn(d, t));
      }
    }
  }

  ghost function RunAll(d: Disk, ts: seq<Txn>): (r: Disk)
    requires Clean(d) && forall i :: 0 <= i < |ts| ==> ts[i].Valid()
    ensures Clean(r)
  {
    if |ts| == 0 then d
    else
      var prior := RunAll(d, ts[..|ts| - 1]);
      TxnIsAtomic(prior, ts[|ts| - 1]);
      RunTxn(prior, ts[|ts| - 1])
  }

  /** The abstract disk: each transaction replaces all its blocks or none of them. */
  ghost function SpecAll(d: Disk, ts: seq<Txn>): Disk
    requires forall i :: 0 <= i < |ts| ==> ts[i].Valid()
  {
    if |ts| == 0 then d
    else
      assert ts[|ts| - 1].Valid();
      var e := SpecAll(d, ts[..|ts| - 1]);
      var t := ts[|ts| - 1];
      if t.Committed() then Apply(e, InstallWrites(t.bl, t.vals)) else e
  }

  /** Durability and atomicity over every history of commits, power failures and interrupted
      recoveries: the data on the disk is that of the transactions whose header reached the
      disk, applied whole and in order. A transaction whose end_op returned is among them. */
  lemma {:induction false} HistoriesAreAtomic(d: Disk, ts: seq<Txn>)
    requires Clean(d) && forall i :: 0 <= i < |ts| ==> ts[i].Valid()
    ensures SameData(RunAll(d, ts), SpecAll(d, ts))
    ensures forall i :: 0 <= i < |ts| && ts[i].Returned() ==> ts[i].Committed()
  {
    hide GetWord, SetWord;
    if |ts| > 0 {
      var prior := ts[..|ts| - 1];
      var t := ts[|ts| - 1];
      HistoriesAreAtomic(d, prior);
      TxnIsAtomic(RunAll(d, prior), t);
      if t.Committed() {
        var d1, e1 := RunAll(d, prior), SpecAll(d, prior);
        var ws := InstallWrites(t.bl, t.vals);
        assert ws[..|t.bl|] == ws;
        InstallPrefix(e1, t.bl, t.vals, |t.bl|);
        InstalledAgain(e1, t.bl, t.vals, d1, RunTxn(d1, t), Apply(e1, ws));
      }
    }
  }
}
