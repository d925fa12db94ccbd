/**
 * The on-disk redo log of kernel/log.c and what a crash leaves of it.
 *
 * A disk is what survives a crash.  `CommitTrace` and `RecoveryTrace` list the
 * disk after each single-block write of commit() and recover_from_log(); a
 * crash picks any entry of them.
 */
module CrashLog {
  import opened Blocks
  import opened Options

  const LOGSIZE := 30
  const MAXOPBLOCKS := 10

  /** log.start and log.size: a header block followed by size - 1 log blocks. */
  datatype Layout = Layout(start: nat, size: nat)

  predicate InLog(l: Layout, n: nat) {
    l.start <= n < l.start + l.size
  }

  /** struct logheader in the first words of a block. */
  predicate HeaderOk(b: Block) {
    0 <= b[0] <= LOGSIZE
  }

  function HeaderBlocks(b: Block): seq<int>
    requires HeaderOk(b)
  {
    b[1..1 + b[0]]
  }

  /** write_head: words past the n-th entry keep what they held. */
  function PutHeader(b: Block, blocks: seq<int>): (r: Block)
    requires |blocks| <= LOGSIZE
    ensures HeaderOk(r) && HeaderBlocks(r) == blocks
  {
    [|blocks|] + blocks + b[1 + |blocks|..]
  }

  /** Distinct home blocks that fit in the log. */
  ghost predicate Loggable(l: Layout, d: Disk, blocks: seq<int>) {
    && |blocks| <= LOGSIZE && |blocks| + 1 <= l.size && l.start + l.size <= |d|
    && (forall i :: 0 <= i < |blocks| ==> 0 <= blocks[i] < |d| && !InLog(l, blocks[i]))
    && (forall i, j :: 0 <= i < j < |blocks| ==> blocks[i] != blocks[j])
  }

  ghost predicate WellFormed(l: Layout, d: Disk) {
    && l.size >= 1 && l.start + l.size <= |d|
    && HeaderOk(d[l.start])
    && Loggable(l, d, HeaderBlocks(d[l.start]))
  }

  /** No transaction in the log. */
  ghost predicate Quiet(l: Layout, d: Disk) {
    l.size >= 1 && l.start + l.size <= |d| && d[l.start][0] == 0
  }

  /** The home part of two disks is the same. */
  ghost predicate SameHome(l: Layout, d: Disk, e: Disk) {
    |d| == |e| && forall n :: 0 <= n < |d| && !InLog(l, n) ==> d[n] == e[n]
  }

  // ------------------------------------------------------------------- recovery

  /** install_trans after k iterations. */
  function Install(l: Layout, d: Disk, blocks: seq<int>, k: nat): (r: Disk)
    requires k <= |blocks| && l.start + |blocks| < |d|
    requires forall i :: 0 <= i < |blocks| ==> 0 <= blocks[i] < |d|
    ensures |r| == |d|
  {
    if k == 0 then d
    else var e := Install(l, d, blocks, k - 1); e[blocks[k - 1] := e[l.start + k]]
  }

  function Erase(l: Layout, d: Disk): (r: Disk)
    requires l.start < |d|
  {
    d[l.start := PutHeader(d[l.start], [])]
  }

  /** The disk after an uninterrupted recover_from_log. */
  ghost function Recovered(l: Layout, d: Disk): Disk
    requires WellFormed(l, d)
  {
    var blocks := HeaderBlocks(d[l.start]);
    Erase(l, Install(l, d, blocks, |blocks|))
  }

  ghost function RecoveryTrace(l: Layout, d: Disk): seq<Disk>
    requires WellFormed(l, d)
  {
    InstallTrace(l, d, HeaderBlocks(d[l.start]))
  }

  /** Every disk state of install_trans followed by the erasing write_head. */
  ghost function InstallTrace(l: Layout, d: Disk, blocks: seq<int>): seq<Disk>
    requires Loggable(l, d, blocks)
  {
    [d] + HomeTrace(l, d, blocks, |blocks|) + [Erase(l, Install(l, d, blocks, |blocks|))]
  }

  ghost function HomeTrace(l: Layout, d: Disk, blocks: seq<int>, m: nat): (r: seq<Disk>)
    requires Loggable(l, d, blocks) && m <= |blocks|
    ensures |r| == m
  {
    seq(m, k requires 0 <= k < m => Install(l, d, blocks, k + 1))
  }

  lemma HomeTraceGrows(l: Layout, d: Disk, blocks: seq<int>, m: nat)
    requires Loggable(l, d, blocks) && m < |blocks|
    ensures HomeTrace(l, d, blocks, m + 1) == HomeTrace(l, d, blocks, m) + [Install(l, d, blocks, m + 1)]
  {
  }

  /** The states after the first m writes of a trace. */
  ghost function Writes(tr: seq<Disk>, m: nat): seq<Disk>
    requires m < |tr|
  {
    tr[1..1 + m]
  }

  lemma InstallPrefix(l: Layout, d: Disk, blocks: seq<int>, k: nat)
    requires Loggable(l, d, blocks) && k <= |blocks|
    ensures |InstallTrace(l, d, blocks)| == |blocks| + 2
    ensures Writes(InstallTrace(l, d, blocks), k) == HomeTrace(l, d, blocks, k)
    ensures Writes(InstallTrace(l, d, blocks), |blocks| + 1) ==
            HomeTrace(l, d, blocks, |blocks|) + [Erase(l, Install(l, d, blocks, |blocks|))]
  {
    assert HomeTrace(l, d, blocks, |blocks|)[..k] == HomeTrace(l, d, blocks, k);
  }

  /** Installing writes exactly the logged home blocks, each with its log block. */
  lemma {:induction false} InstallAt(l: Layout, d: Disk, blocks: seq<int>, k: nat, n: nat)
    requires Loggable(l, d, blocks) && k <= |blocks| && n < |d|
    ensures (forall i :: 0 <= i < k ==> blocks[i] != n) ==> Install(l, d, blocks, k)[n] == d[n]
    ensures forall i :: 0 <= i < k && blocks[i] == n ==> Install(l, d, blocks, k)[n] == d[l.start + 1 + i]
  {
    if k > 0 {
      InstallAt(l, d, blocks, k - 1, n);
      InstallAt(l, d, blocks, k - 1, l.start + k);
      assert InLog(l, l.start + k);
    }
  }

  /** Recovery from any point of a recovery ends in the same disk. */
  lemma RecoveryResumes(l: Layout, d: Disk, i: nat)
    requires WellFormed(l, d) && i < |RecoveryTrace(l, d)|
    ensures WellFormed(l, RecoveryTrace(l, d)[i])
    ensures Recovered(l, RecoveryTrace(l, d)[i]) == Recovered(l, d)
  {
    var blocks := HeaderBlocks(d[l.start]);
    if i <= |blocks| {
      InstallAgain(l, d, blocks, i);
    } else {
      var e := Recovered(l, d);
      assert PutHeader(e[l.start], []) == e[l.start];
      assert Recovered(l, e) == e[l.start := e[l.start]] == e;
    }
  }

  /** Installing over a partial installation gives the full one. */
  lemma InstallAgain(l: Layout, d: Disk, blocks: seq<int>, i: nat)
    requires Loggable(l, d, blocks) && i <= |blocks|
    ensures Install(l, d, blocks, i)[l.start] == d[l.start]
    ensures Loggable(l, Install(l, d, blocks, i), blocks)
    ensures Install(l, Install(l, d, blocks, i), blocks, |blocks|) == Install(l, d, blocks, |blocks|)
  {
    var e := Install(l, d, blocks, i);
    InstallAt(l, d, blocks, i, l.start);
    forall n | 0 <= n < |d|
      ensures Install(l, e, blocks, |blocks|)[n] == Install(l, d, blocks, |blocks|)[n]
    {
      InstallAt(l, e, blocks, |blocks|, n);
      InstallAt(l, d, blocks, |blocks|, n);
      InstallAt(l, d, blocks, i, n);
      if j :| 0 <= j < |blocks| && blocks[j] == n {
        InstallAt(l, d, blocks, i, l.start + 1 + j);
      }
    }
  }

  /** Crashes during recovery: each disk is a state some recovery of the one before passes through. */
  ghost predicate Crashes(l: Layout, ds: seq<Disk>) {
    && ds != []
    && forall i :: 0 <= i < |ds| - 1 ==> WellFormed(l, ds[i]) && ds[i + 1] in RecoveryTrace(l, ds[i])
  }

  /** Any number of crashes inside recovery change nothing of what a completed recovery leaves. */
  lemma {:induction false} RecoverySurvivesCrashes(l: Layout, ds: seq<Disk>)
    requires Crashes(l, ds) && WellFormed(l, ds[0])
    ensures WellFormed(l, ds[|ds| - 1])
    ensures Recovered(l, ds[|ds| - 1]) == Recovered(l, ds[0])
    decreases |ds|
  {
    if |ds| > 1 {
      var i :| 0 <= i < |RecoveryTrace(l, ds[0])| && RecoveryTrace(l, ds[0])[i] == ds[1];
      RecoveryResumes(l, ds[0], i);
      var rest := ds[1..];
      assert Crashes(l, rest) by {
        forall k | 0 <= k < |rest| - 1
          ensures WellFormed(l, rest[k]) && rest[k + 1] in RecoveryTrace(l, rest[k])
        {
          assert rest[k] == ds[k + 1] && rest[k + 1] == ds[k + 2];
        }
      }
      RecoverySurvivesCrashes(l, rest);
    }
  }

  // --------------------------------------------------------------------- commit

  /** A group of operations to commit: the blocks they changed and the new contents. */
  datatype Txn = Txn(blocks: seq<int>, contents: seq<Block>)

  ghost predicate TxnOk(l: Layout, d: Disk, t: Txn) {
    |t.blocks| == |t.contents| && Loggable(l, d, t.blocks)
  }

  /** write_log after k iterations. */
  function LogWritten(l: Layout, d: Disk, t: Txn, k: nat): (r: Disk)
    requires k <= |t.contents| && l.start + |t.contents| < |d|
    ensures |r| == |d|
  {
    if k == 0 then d else LogWritten(l, d, t, k - 1)[l.start + k := t.contents[k - 1]]
  }

  lemma {:induction false} LogWrittenAt(l: Layout, d: Disk, t: Txn, k: nat, n: nat)
    requires k <= |t.contents| && l.start + |t.contents| < |d| && n < |d|
    ensures LogWritten(l, d, t, k)[n] == if l.start < n <= l.start + k then t.contents[n - l.start - 1] else d[n]
  {
    if k > 0 { LogWrittenAt(l, d, t, k - 1, n); }
  }

  /** The disk after the header write that commits. */
  function Headed(l: Layout, d: Disk, t: Txn): (r: Disk)
    requires |t.blocks| == |t.contents| <= LOGSIZE && l.start + |t.contents| < |d|
    ensures |r| == |d|
  {
    var e := LogWritten(l, d, t, |t.contents|);
    e[l.start := PutHeader(e[l.start], t.blocks)]
  }

  /** commit(): log blocks, header, home blocks, erased header.  Entry |t.blocks| + 1 is the header write. */
  ghost function CommitTrace(l: Layout, d: Disk, t: Txn): seq<Disk>
    requires TxnOk(l, d, t)
  {
    [d] + LogTrace(l, d, t, |t.blocks|) + InstallTrace(l, Headed(l, d, t), t.blocks)
  }

  ghost function LogTrace(l: Layout, d: Disk, t: Txn, m: nat): (r: seq<Disk>)
    requires TxnOk(l, d, t) && m <= |t.blocks|
    ensures |r| == m
  {
    seq(m, k requires 0 <= k < m => LogWritten(l, d, t, k + 1))
  }

  lemma LogTraceGrows(l: Layout, d: Disk, t: Txn, m: nat)
    requires TxnOk(l, d, t) && m < |t.blocks|
    ensures LogTrace(l, d, t, m + 1) == LogTrace(l, d, t, m) + [LogWritten(l, d, t, m + 1)]
  {
  }

  /** The prefixes of a commit: m log blocks, or all of them, the header and k writes after it. */
  lemma CommitPrefix(l: Layout, d: Disk, t: Txn, m: nat, k: nat)
    requires TxnOk(l, d, t) && m <= |t.blocks| && k <= |t.blocks| + 1
    ensures var tr := CommitTrace(l, d, t); var n := |t.blocks|; var h := Headed(l, d, t);
            && |tr| == 2 * n + 3
            && Writes(tr, 0) == []
            && Writes(tr, m) == LogTrace(l, d, t, m)
            && Writes(tr, 1 + n + k) == LogTrace(l, d, t, n) + [h] + Writes(InstallTrace(l, h, t.blocks), k)
  {
    assert LogTrace(l, d, t, |t.blocks|)[..m] == LogTrace(l, d, t, m);
  }

  /** The entries of a commit before the header write, and from it on. */
  lemma CommitEntry(l: Layout, d: Disk, t: Txn, k: nat)
    requires TxnOk(l, d, t) && k <= |t.blocks|
    ensures var tr := CommitTrace(l, d, t); var n := |t.blocks|; var h := Headed(l, d, t);
            |tr| == 2 * n + 3 && tr[k] == LogWritten(l, d, t, k) && tr[n + 1 + k] == Install(l, h, t.blocks, k)
  {
    hide Headed, Erase;
    var log, home := LogTrace(l, d, t, |t.blocks|), InstallTrace(l, Headed(l, d, t), t.blocks);
    assert CommitTrace(l, d, t) == [d] + log + home;
    if k > 0 { assert log[k - 1] == LogWritten(l, d, t, k); }
    assert home[k] == Install(l, Headed(l, d, t), t.blocks, k);
  }

  /** The transaction applied to the home blocks, as if it were one write. */
  ghost predicate Applied(l: Layout, d: Disk, t: Txn, e: Disk)
    requires TxnOk(l, d, t)
  {
    && |e| == |d|
    && (forall i :: 0 <= i < |t.blocks| ==> e[t.blocks[i]] == t.contents[i])
    && (forall n :: 0 <= n < |d| && !InLog(l, n) && n !in t.blocks ==> e[n] == d[n])
  }

  lemma HeadedInstalls(l: Layout, d: Disk, t: Txn)
    requires TxnOk(l, d, t)
    ensures WellFormed(l, Headed(l, d, t)) && HeaderBlocks(Headed(l, d, t)[l.start]) == t.blocks
    ensures Applied(l, d, t, Recovered(l, Headed(l, d, t)))
  {
    var h := Headed(l, d, t);
    var e := Recovered(l, h);
    assert InLog(l, l.start);
    forall i | 0 <= i < |t.blocks| ensures e[t.blocks[i]] == t.contents[i] {
      InstallAt(l, h, t.blocks, |t.blocks|, t.blocks[i]);
      LogWrittenAt(l, d, t, |t.blocks|, l.start + 1 + i);
    }
    forall n | 0 <= n < |d| && !InLog(l, n) && n !in t.blocks ensures e[n] == d[n] {
      InstallAt(l, h, t.blocks, |t.blocks|, n);
      LogWrittenAt(l, d, t, |t.blocks|, n);
    }
  }

  /**
   * Crash atomicity: recovery after a crash at any point of commit() leaves the
   * home blocks all old before the header write, and all new from it on.
   */
  lemma CommitIsAtomic(l: Layout, d: Disk, t: Txn, i: nat)
    requires Quiet(l, d) && TxnOk(l, d, t) && i < |CommitTrace(l, d, t)|
    ensures WellFormed(l, CommitTrace(l, d, t)[i])
    ensures i <= |t.blocks| ==> SameHome(l, d, Recovered(l, CommitTrace(l, d, t)[i]))
    ensures i > |t.blocks| ==> Applied(l, d, t, Recovered(l, CommitTrace(l, d, t)[i]))
  {
    var x := CommitTrace(l, d, t)[i];
    if i <= |t.blocks| {
      assert x == LogWritten(l, d, t, i);
      LogWrittenAt(l, d, t, i, l.start);
      assert HeaderBlocks(x[l.start]) == [];
      forall n | 0 <= n < |d| && !InLog(l, n) ensures x[n] == d[n] { LogWrittenAt(l, d, t, i, n); }
    } else {
      var h := Headed(l, d, t);
      HeadedInstalls(l, d, t);
      assert x == RecoveryTrace(l, h)[i - |t.blocks| - 1];
      RecoveryResumes(l, h, i - |t.blocks| - 1);
    }
  }

  /** A commit that runs to its end leaves the log empty and the transaction applied. */
  lemma CommitCompletes(l: Layout, d: Disk, t: Txn)
    requires Quiet(l, d) && TxnOk(l, d, t)
    ensures var tr := CommitTrace(l, d, t);
            |tr| == 2 * |t.blocks| + 3 && Quiet(l, tr[|tr| - 1]) && Applied(l, d, t, tr[|tr| - 1])
  {
    HeadedInstalls(l, d, t);
    var h := Headed(l, d, t);
    assert RecoveryTrace(l, h)[|t.blocks| + 1] == Recovered(l, h);
    assert CommitTrace(l, d, t)[2 * |t.blocks| + 2] == Recovered(l, h);
  }

  // ----------------------------------------------------------------- whole lives of a disk

  /**
   * What can happen to a quiet disk: a transaction commits, or the machine
   * crashes at some point of its commit and recovers, possibly crashing again
   * during recovery (`crashes` starts with the disk the first crash left).
   */
  datatype Event =
    | Commit(t: Txn)
    | Crash(t: Txn, at: nat, crashes: seq<Disk>)

  ghost predicate Happens(l: Layout, d: Disk, e: Event, d': Disk) {
    match e
    case Commit(t) => TxnOk(l, d, t) && var tr := CommitTrace(l, d, t); d' == tr[|tr| - 1]
    case Crash(t, at, crashes) =>
      && TxnOk(l, d, t) && at < |CommitTrace(l, d, t)|
      && Crashes(l, crashes) && crashes[0] == CommitTrace(l, d, t)[at]
      && WellFormed(l, crashes[|crashes| - 1])
      && d' == Recovered(l, crashes[|crashes| - 1])
  }

  /** Whether the event's transaction takes effect: its header write happened. */
  predicate Survives(e: Event) {
    match e
    case Commit(_) => true
    case Crash(t, at, _) => at > |t.blocks|
  }

  /** One event takes all of its transaction or nothing of it, and leaves the log empty. */
  lemma EventIsAtomic(l: Layout, d: Disk, e: Event, d': Disk)
    requires Quiet(l, d) && Happens(l, d, e, d')
    ensures Quiet(l, d') && |d'| == |d|
    ensures Survives(e) ==> Applied(l, d, e.t, d')
    ensures !Survives(e) ==> SameHome(l, d, d')
  {
    match e
    case Commit(t) => CommitCompletes(l, d, t);
    case Crash(t, at, crashes) =>
      CommitIsAtomic(l, d, t, at);
      RecoverySurvivesCrashes(l, crashes);
  }

  ghost predicate History(l: Layout, ds: seq<Disk>, es: seq<Event>) {
    && |ds| == |es| + 1
    && forall i :: 0 <= i < |es| ==> Happens(l, ds[i], es[i], ds[i + 1])
  }

  /** The last write to block n by a transaction that survived. */
  ghost function LastWrite(es: seq<Event>, n: nat): Option<Block> {
    if es == [] then None
    else
      var e := es[|es| - 1];
      if Survives(e) && |e.t.blocks| == |e.t.contents| && n in e.t.blocks then
        var i :| 0 <= i < |e.t.blocks| && e.t.blocks[i] == n;
        Some(e.t.contents[i])
      else LastWrite(es[..|es| - 1], n)
  }

  /** Over any history of commits and crashes, a home block holds the last surviving write to it. */
  lemma {:induction false} HistoryIsDurable(l: Layout, ds: seq<Disk>, es: seq<Event>, n: nat)
    requires History(l, ds, es) && Quiet(l, ds[0]) && n < |ds[0]| && !InLog(l, n)
    ensures Quiet(l, ds[|es|]) && |ds[|es|]| == |ds[0]|
    ensures ds[|es|][n] == match LastWrite(es, n) case Some(b) => b case None => ds[0][n]
    decreases |es|
  {
    if es != [] {
      var k := |es| - 1;
      HistoryIsDurable(l, ds[..k + 1], es[..k], n);
      assert ds[..k + 1][k] == ds[k];
      EventIsAtomic(l, ds[k], es[k], ds[k + 1]);
    }
  }
}
