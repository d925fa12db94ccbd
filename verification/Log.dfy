/** kernel/log.c as it runs over the buffer cache. */
module Log {
  import opened Blocks
  import opened Options
  import opened BufferCache
  import opened CrashLog
  import B = Bcache
  import A = LogAdmission

  /** No process holds a buffer. */
  ghost predicate AllFree(w: World) {
    forall b :: 0 <= b < |w.slots| ==> !w.slots[b].buf.locked
  }

  // -------------------------------------- the buffer operations as commit() uses them

  ghost function BreadW(w: World, n: nat): World
    requires Inv(w) && n < |w.disk| && Chosen(w, n).Some?
  {
    GetKeepsInv(w, n);
    Fill(Lock(Get(w, n), Chosen(w, n).value), Chosen(w, n).value)
  }

  /** The buffer a bread has returned. */
  predicate Held(w: World, b: nat, n: nat) {
    && b < |w.slots|
    && Caches(w.slots[b].buf, n) && w.slots[b].buf.valid && w.slots[b].buf.locked
    && w.slots[b].buf.refcnt >= 1 && w.slots[b].users >= 1
  }

  /** Only buffer b differs. */
  ghost predicate OtherSlotsSame(w: World, w': World, b: nat) {
    |w'.slots| == |w.slots| && forall c :: 0 <= c < |w.slots| && c != b ==> w'.slots[c] == w.slots[c]
  }

  lemma BreadStage(w: World, n: nat)
    requires Inv(w) && n < |w.disk| && Chosen(w, n).Some?
    requires forall c :: 0 <= c < |w.slots| && Caches(w.slots[c].buf, n) ==> !w.slots[c].buf.locked
    ensures var b := Chosen(w, n).value; var w' := BreadW(w, n);
            && Inv(w') && w'.disk == w.disk && w'.logged == w.logged && OtherSlotsSame(w, w', b)
            && !w.slots[b].buf.locked
            && Held(w', b, n) && !w'.slots[b].touched && w'.slots[b].buf.data == View(w, n)
            && w'.slots[b].users == w.slots[b].users + 1
  {
    hide LruOrder, OneCopy, LogCached;
    var b := Chosen(w, n).value;
    assert SlotOk(w, w.slots[b]);
    BreadSeesView(w, n);
    assert SlotOk(BreadW(w, n), BreadW(w, n).slots[b]);
  }

  lemma WriteStage(w: World, b: nat, n: nat, d: Block)
    requires Inv(w) && Held(w, b, n)
    ensures n < |w.disk|
    ensures var w' := Write(Modify(w, b, d), b);
            && Inv(w') && w'.disk == w.disk[n := d] && w'.logged == w.logged && OtherSlotsSame(w, w', b)
            && Held(w', b, n) && w'.slots[b].touched == (n in w.logged && w.logged[n].data != d)
            && w'.slots[b].pins == w.slots[b].pins && w'.slots[b].users == w.slots[b].users
  {
    ModifyKeepsInv(w, b, d);
    WriteKeepsInv(Modify(w, b, d), b);
  }

  lemma UnpinStage(w: World, b: nat, n: nat)
    requires Inv(w) && Held(w, b, n) && n in w.logged && n < |w.disk| && w.disk[n] == w.logged[n].data
    ensures w.slots[b].pins >= 1
    ensures var w' := Unpin(w, b);
            && Inv(w') && w'.disk == w.disk && w'.logged == w.logged - {n} && OtherSlotsSame(w, w', b)
            && Held(w', b, n) && w'.slots[b].touched == w.slots[b].touched && w'.slots[b].users == w.slots[b].users
  {
    assert SlotOk(w, w.slots[b]);
    UnpinKeepsInv(w, b);
    assert SlotOk(Unpin(w, b), Unpin(w, b).slots[b]);
  }

  lemma ReleaseStage(w: World, b: nat, n: nat)
    requires Inv(w) && Held(w, b, n) && !w.slots[b].touched
    ensures var w' := Put(Unlock(w, b), b);
            && Inv(w') && w'.disk == w.disk && w'.logged == w.logged && OtherSlotsSame(w, w', b)
            && !w'.slots[b].buf.locked && w'.slots[b].users == w.slots[b].users - 1
  {
    BrelseKeepsInv(w, b);
  }

  // -------------------------------------------------------------------- buffers enough for all

  /** Nobody is at a buffer, and there are two for blocks m and n, of which n may be in the log. */
  ghost predicate Roomy(w: World, n: nat) {
    UsedOnly(w, {}) && |w.logged| < NBUF && (n in w.logged || |w.logged| + 1 < NBUF)
  }

  lemma RoomyFirst(w: World, m: nat, n: nat)
    requires Inv(w) && Roomy(w, n)
    ensures Chosen(w, m).Some?
  {
    BufferLeft(w, {}, m);
  }

  /** After one bread the other finds its buffer, too. */
  lemma RoomySecond(w: World, w1: World, a: nat, n: nat)
    requires Inv(w1) && Roomy(w, n) && OtherSlotsSame(w, w1, a) && w1.logged == w.logged
    requires a < |w1.slots| == |w.slots| && w1.slots[a].users == w.slots[a].users + 1
    ensures UsedOnly(w1, {a}) && Chosen(w1, n).Some?
  {
    hide Inv, Chosen;
    assert UsedOnly(w1, {a});
    if n in w.logged { LoggedIsHit(w1, n); } else { BufferLeft(w1, {a}, n); }
  }

  lemma UsesOne(w: World, w': World, s: set<nat>, b: nat)
    requires UsedOnly(w, s) && OtherSlotsSame(w, w', b) && b < |w'.slots| == |w.slots|
    ensures b !in s && w'.slots[b].users == w.slots[b].users + 1 ==> UsedOnly(w', s + {b})
    ensures b in s && w'.slots[b].users == w.slots[b].users - 1 ==> UsedOnly(w', s - {b})
    ensures w'.slots[b].users == w.slots[b].users ==> UsedOnly(w', s)
  {
  }

  /** Buffers enough for a commit of lh, or for a recovery. */
  ghost predicate Ready(w: World, lh: seq<nat>, recovering: bool) {
    && UsedOnly(w, {}) && |w.logged| < NBUF
    && if recovering then w.logged == map[] else forall i :: 0 <= i < |lh| ==> lh[i] in w.logged
  }

  lemma RecoveryReady(w: World, lh: seq<nat>)
    requires UsedOnly(w, {}) && w.logged == map[]
    ensures Ready(w, lh, true)
  {
  }

  lemma {:induction false} SeqSetSize(s: seq<nat>)
    requires forall i, j :: 0 <= i < j < |s| ==> s[i] != s[j]
    ensures |SeqSet(s)| == |s|
    decreases |s|
  {
    if s != [] {
      var rest := s[1..];
      SeqSetSize(rest);
      assert SeqSet(s) == SeqSet(rest) + {s[0]};
    }
  }

  /** As many blocks are pinned as listed. */
  lemma CommitBuffers(w: World, l: Layout, lh: seq<nat>)
    requires Loggable(l, w.disk, lh) && w.logged.Keys == SeqSet(lh)
    ensures |w.logged| == |lh| <= NBUF
    ensures UsedOnly(w, {}) && |lh| < NBUF ==> Ready(w, lh, false)
  {
    hide UsedOnly;
    SeqSetSize(lh);
    assert |w.logged| == |w.logged.Keys|;
    assert forall i :: 0 <= i < |lh| ==> lh[i] in SeqSet(lh);
  }

  lemma HoldsLoggable(l: Layout, d: Disk, lh: seq<nat>, logged: map<nat, Entry>, recovering: bool)
    requires LogHolds(l, d, lh, logged, recovering)
    ensures Loggable(l, d, lh)
  {
  }

  lemma NothingLogged(l: Layout, w: World, lh: seq<nat>)
    requires Loggable(l, w.disk, lh)
    ensures LogWritten(l, w.disk, Pending(w, lh), 0) == w.disk && LogTrace(l, w.disk, Pending(w, lh), 0) == []
  {
  }

  lemma NothingInstalled(l: Layout, d: Disk, lh: seq<nat>)
    requires Loggable(l, d, lh)
    ensures Install(l, d, lh, 0) == d && HomeTrace(l, d, lh, 0) == []
  {
  }

  lemma ReadyOne(w: World, lh: seq<nat>, recovering: bool, i: nat)
    requires Ready(w, lh, recovering) && i < |lh|
    ensures Roomy(w, lh[i])
  {
  }

  lemma ReadyOnly(w: World, lh: seq<nat>, recovering: bool)
    requires Ready(w, lh, recovering)
    ensures UsedOnly(w, {}) && |w.logged| < NBUF
  {
  }

  lemma ReadySame(w: World, w': World, lh: seq<nat>, recovering: bool)
    requires Ready(w, lh, recovering) && UsedOnly(w', {}) && w'.logged == w.logged
    ensures Ready(w', lh, recovering)
  {
  }

  lemma FewerLogged(a: map<nat, Entry>, b: map<nat, Entry>)
    requires a.Keys <= b.Keys
    ensures |a| <= |b|
  {
    assert b.Keys == a.Keys + (b.Keys - a.Keys);
    assert |a| == |a.Keys| && |b| == |b.Keys|;
  }

  /** In the middle of an installation. */
  lemma InstallRoomy(logged: map<nat, Entry>, w: World, lh: seq<nat>, recovering: bool, tail: nat)
    requires |logged| < NBUF && (recovering ==> logged == map[]) && UsedOnly(w, {}) && tail < |lh|
    requires w.logged == logged - SeqSet(lh[..tail])
    requires !recovering ==> lh[tail] in w.logged
    ensures Roomy(w, lh[tail])
  {
    FewerLogged(w.logged, logged);
    if recovering { assert w.logged == map[]; }
  }

  lemma ReadyMeans(w: World, lh: seq<nat>, recovering: bool)
    requires Ready(w, lh, recovering)
    ensures UsedOnly(w, {}) && |w.logged| < NBUF && (recovering ==> w.logged == map[])
  {
  }

  /** One buffer is held, and nobody holds another. */
  ghost predicate HoldsOne(w: World, b: nat, n: nat) {
    Held(w, b, n) && forall c :: 0 <= c < |w.slots| && w.slots[c].buf.locked ==> c == b
  }

  /** Both buffers of a block copy are held, unchanged, and nobody holds another. */
  ghost predicate HoldsTwo(w: World, a: nat, m: nat, b: nat, n: nat)
  {
    && a != b && Held(w, a, m) && Held(w, b, n)
    && (forall c :: 0 <= c < |w.slots| && w.slots[c].buf.locked ==> c == a || c == b)
  }

  // ------------------------------------------------------------------------ class

  /** The transaction that commit() is about to write: the logged blocks as the cache shows them. */
  ghost function Pending(w: World, lh: seq<nat>): Txn
    requires forall i :: 0 <= i < |lh| ==> lh[i] < |w.disk|
  {
    Txn(lh, seq(|lh|, i requires 0 <= i < |lh| => View(w, lh[i])))
  }

  ghost function SeqSet(s: seq<nat>): set<nat> { set n | n in s }

  /** What write_log does in its iteration `tail`. */
  lemma LogReady(w0: World, w: World, l: Layout, lh: seq<nat>, tail: nat)
    requires Loggable(l, w0.disk, lh) && tail < |lh|
    requires w.disk == LogWritten(l, w0.disk, Pending(w0, lh), tail) && w.logged == w0.logged
    ensures Loggable(l, w.disk, lh)
    ensures w.disk[l.start + tail + 1 := View(w, lh[tail])] == LogWritten(l, w0.disk, Pending(w0, lh), tail + 1)
  {
    LogWrittenAt(l, w0.disk, Pending(w0, lh), tail, lh[tail]);
  }

  /** The log blocks on disk hold what is to be installed: during commit, the pinned contents. */
  ghost predicate LogHolds(l: Layout, d: Disk, lh: seq<nat>, logged: map<nat, Entry>, recovering: bool) {
    && Loggable(l, d, lh)
    && (if recovering then logged == map[] else logged.Keys == SeqSet(lh))
    && (!recovering ==> forall i :: 0 <= i < |lh| ==> logged[lh[i]].data == d[l.start + i + 1])
  }

  /** What install_trans finds before its iteration `tail`. */
  lemma InstallReady(l: Layout, d: Disk, lh: seq<nat>, logged: map<nat, Entry>, tail: nat, recovering: bool)
    requires LogHolds(l, d, lh, logged, recovering) && tail < |lh|
    ensures var d' := Install(l, d, lh, tail); var logged' := logged - SeqSet(lh[..tail]);
            && Loggable(l, d', lh) && (forall n :: n in logged' ==> !InLog(l, n))
            && (if recovering then lh[tail] !in logged'
                else lh[tail] in logged' && logged'[lh[tail]].data == d'[l.start + tail + 1])
            && logged' - {lh[tail]} == logged - SeqSet(lh[..tail + 1])
            && d'[lh[tail] := d'[l.start + tail + 1]] == Install(l, d, lh, tail + 1)
  {
    InstallAt(l, d, lh, tail, l.start + tail + 1);
    assert InLog(l, l.start + tail + 1);
    assert lh[..tail + 1] == lh[..tail] + [lh[tail]];
  }

  lemma InstallStartEnd(l: Layout, d: Disk, lh: seq<nat>, logged: map<nat, Entry>, recovering: bool)
    requires LogHolds(l, d, lh, logged, recovering)
    ensures logged - SeqSet(lh[..0]) == logged && logged - SeqSet(lh[..|lh|]) == map[]
  {
    assert lh[..|lh|] == lh;
  }

  /** write_log put the pinned contents of every block where install_trans will find them. */
  lemma PinnedOnDisk(w: World, l: Layout, lh: seq<nat>, i: nat)
    requires Loggable(l, w.disk, lh) && w.logged.Keys == SeqSet(lh) && i < |lh|
    ensures lh[i] in w.logged && !InLog(l, lh[i])
    ensures Headed(l, w.disk, Pending(w, lh))[l.start + i + 1] == w.logged[lh[i]].data
  {
    LogWrittenAt(l, w.disk, Pending(w, lh), |lh|, l.start + i + 1);
    assert lh[i] in SeqSet(lh);
  }

  /** What commit() finds after its header write. */
  lemma CommitReady(w: World, l: Layout, lh: seq<nat>)
    requires Quiet(l, w.disk) && Loggable(l, w.disk, lh) && w.logged.Keys == SeqSet(lh)
    ensures l.start !in w.logged && forall n :: n in w.logged ==> !InLog(l, n)
    ensures LogHolds(l, Headed(l, w.disk, Pending(w, lh)), lh, w.logged, false)
  {
    hide Headed, View;
    assert InLog(l, l.start);
    forall i | 0 <= i < |lh|
      ensures lh[i] in w.logged && w.logged[lh[i]].data == Headed(l, w.disk, Pending(w, lh))[l.start + i + 1]
    {
      PinnedOnDisk(w, l, lh, i);
    }
  }

  /** What commit() leaves behind: every home block as the cache showed it. */
  lemma CommitShowsView(w: World, l: Layout, lh: seq<nat>)
    requires Quiet(l, w.disk) && Loggable(l, w.disk, lh) && w.logged.Keys == SeqSet(lh)
    ensures Loggable(l, Headed(l, w.disk, Pending(w, lh)), lh)
    ensures var e := Erase(l, Install(l, Headed(l, w.disk, Pending(w, lh)), lh, |lh|));
            && Quiet(l, e) && |e| == |w.disk|
            && (forall n :: 0 <= n < |w.disk| && !InLog(l, n) ==> e[n] == View(w, n))
    ensures lh == [] ==> w.logged == map[] && forall n :: 0 <= n < |w.disk| ==> w.disk[n] == View(w, n)
  {
    var t := Pending(w, lh);
    HeadedInstalls(l, w.disk, t);
    var e := Recovered(l, Headed(l, w.disk, t));
    forall n | 0 <= n < |w.disk| && !InLog(l, n) ensures e[n] == View(w, n) {
      if n in w.logged {
        var i :| 0 <= i < |lh| && lh[i] == n;
        assert e[t.blocks[i]] == t.contents[i];
      }
    }
  }

  lemma NotIdle(ops: map<nat, nat>, op: nat)
    requires op in ops
    ensures |ops| >= 1 && |ops - {op}| == |ops| - 1
    ensures |ops - {op}| == 0 <==> ops - {op} == map[]
  {
    assert (ops - {op}).Keys == ops.Keys - {op};
    assert |ops.Keys| == |ops| && |(ops - {op}).Keys| == |ops - {op}|;
  }

  /** A log_write within the budget, as a step of the admission protocol. */
  lemma WriteAdmitted(size: int, run: seq<A.Step>, s: A.State, op: nat, n: nat)
    requires A.Reachable(size, run, s) && A.Enabled(s, A.Write(op, n))
    ensures |s.ops| >= 1 && |A.Take(s, A.Write(op, n)).ops| == |s.ops|
    ensures size - 1 >= LOGSIZE && s.ops[op] < MAXOPBLOCKS ==> !A.TooBig(size, s)
    ensures !A.TooBig(size, s) ==> A.Reachable(size, run + [A.Write(op, n)], A.Take(s, A.Write(op, n)))
  {
    NotIdle(s.ops, op);
    var ops := A.Take(s, A.Write(op, n)).ops;
    assert ops.Keys == s.ops.Keys;
    assert |ops.Keys| == |ops|;
    if size - 1 >= LOGSIZE && s.ops[op] < MAXOPBLOCKS { A.WithinBudget(size, run, s, op); }
    if !A.TooBig(size, s) { A.ReachableMore(size, run, s, A.Write(op, n)); }
  }

  class Log {
    const bc: B.Bcache
    const l: Layout              // log.start, log.size
    var outstanding: nat
    var committing: bool
    var lh: seq<nat>             // log.lh.block[0..log.lh.n]
    ghost var ops: map<nat, nat> // the operations that began and did not end, with the blocks each added
    ghost var run: seq<A.Step>   // the admission steps taken so far
    ghost var asleep: set<nat>   // the operations asleep on &log in begin_op

    /** initlog up to the recovery. */
    constructor (bc: B.Bcache, l: Layout)
      ensures this.bc == bc && this.l == l && outstanding == 0 && !committing && lh == [] && ops == map[]
      ensures Admits() && Awake()
    {
      this.bc := bc;
      this.l := l;
      outstanding, committing, lh, ops, run, asleep := 0, false, [], map[], [], {};
    }

    /** The log as the admission protocol sees it. */
    ghost function Admission(): A.State
      reads this
    {
      A.State(lh, ops, committing)
    }

    /** The fields are in a state that the admission steps reach. */
    ghost predicate Admits()
      reads this
    {
      outstanding == |ops| && A.Reachable(l.size, run, Admission())
    }

    /** Operations sleep only while there is no room for them. */
    ghost predicate Awake()
      reads this
    {
      asleep != {} ==> !A.Room(Admission())
    }

    /** The method took this admission step. */
    twostate predicate Steps(step: A.Step)
      reads this
    {
      && old(A.Enabled(Admission(), step)) && Admission() == A.Take(old(Admission()), step)
      && run == old(run) + [step] && Admits()
    }

    /** The cache keeps its invariant, and nobody holds a buffer. */
    ghost predicate Idle()
      reads this, bc
    {
      bc.Valid() && Inv(bc.w) && AllFree(bc.w)
    }

    /** bread; None is a "no buffers" panic, which does not come while a buffer is left. */
    method BreadOne(n: nat) returns (r: Option<nat>)
      requires Idle() && n < |bc.w.disk|
      modifies bc
      ensures bc.trace == old(bc.trace)
      ensures r.Some? ==> && bc.Valid() && Inv(bc.w) && HoldsOne(bc.w, r.value, n)
                          && bc.w.disk == old(bc.w).disk && bc.w.logged == old(bc.w).logged
                          && !bc.w.slots[r.value].touched && bc.w.slots[r.value].buf.data == View(old(bc.w), n)
      ensures UsedOnly(old(bc.w), {}) && |old(bc.w).logged| < NBUF ==> r.Some? && UsedOnly(bc.w, {r.value})
    {
      hide Inv, B.Bcache.Valid, Get, Lock, Fill, Chosen, UsedOnly;
      ghost var roomy := UsedOnly(bc.w, {}) && |bc.w.logged| < NBUF;
      if roomy { BufferLeft(bc.w, {}, n); }
      r := bc.Bread(n);
      if r.None? { return; }
      BreadStage(old(bc.w), n);
      if roomy {
        UsesOne(old(bc.w), bc.w, {}, r.value);
        assert {} + {r.value} == {r.value};
      }
    }

    /** brelse of the only buffer that is held. */
    method BrelseOne(b: nat, ghost n: nat)
      requires bc.Valid() && Inv(bc.w) && HoldsOne(bc.w, b, n) && !bc.w.slots[b].touched
      modifies bc
      ensures Idle() && bc.trace == old(bc.trace)
      ensures bc.w.disk == old(bc.w).disk && bc.w.logged == old(bc.w).logged
      ensures UsedOnly(old(bc.w), {b}) ==> UsedOnly(bc.w, {})
    {
      hide Inv, B.Bcache.Valid, Put, Unlock, UsedOnly;
      ghost var all := UsedOnly(bc.w, {b});
      var _ := bc.Brelse(b);
      ReleaseStage(old(bc.w), b, n);
      if all {
        UsesOne(old(bc.w), bc.w, {b}, b);
        assert {b} - {b} == {};
      }
    }

    /** The two breads of a block copy; None is a "no buffers" panic. */
    method BreadTwo(m: nat, n: nat) returns (r: Option<(nat, nat)>)
      requires Idle() && m != n && m < |bc.w.disk| && n < |bc.w.disk|
      modifies bc
      ensures bc.trace == old(bc.trace)
      ensures r.Some? ==> && bc.Valid() && Inv(bc.w) && HoldsTwo(bc.w, r.value.0, m, r.value.1, n)
                          && bc.w.disk == old(bc.w).disk && bc.w.logged == old(bc.w).logged
                          && !bc.w.slots[r.value.0].touched && !bc.w.slots[r.value.1].touched
                          && bc.w.slots[r.value.0].buf.data == View(old(bc.w), m)
                          && bc.w.slots[r.value.1].buf.data == View(old(bc.w), n)
      ensures Roomy(old(bc.w), n) ==> r.Some? && UsedOnly(bc.w, {r.value.0, r.value.1})
      ensures |old(bc.w).logged| == NBUF && m !in old(bc.w).logged ==> r.None?
    {
      hide Inv, B.Bcache.Valid, Get, Lock, Fill, Chosen, Roomy, UsedOnly;
      if Roomy(bc.w, n) { RoomyFirst(bc.w, m, n); }
      if |bc.w.logged| == NBUF && m !in bc.w.logged { NoBufferLeft(bc.w, m); }
      var a := bc.Bread(m);
      if a.None? { return None; }
      BreadStage(old(bc.w), m);
      ghost var w1 := bc.w;
      if Roomy(old(bc.w), n) { RoomySecond(old(bc.w), w1, a.value, n); }
      var b := bc.Bread(n);
      if b.None? { return None; }
      BreadStage(w1, n);
      if Roomy(old(bc.w), n) {
        UsesOne(w1, bc.w, {a.value}, b.value);
        assert {a.value} + {b.value} == {a.value, b.value};
      }
      return Some((a.value, b.value));
    }

    /** The two brelses of a block copy. */
    method BrelseTwo(a: nat, ghost m: nat, b: nat, ghost n: nat)
      requires bc.Valid() && Inv(bc.w) && HoldsTwo(bc.w, a, m, b, n)
      requires !bc.w.slots[a].touched && !bc.w.slots[b].touched
      modifies bc
      ensures Idle() && bc.trace == old(bc.trace)
      ensures bc.w.disk == old(bc.w).disk && bc.w.logged == old(bc.w).logged
      ensures UsedOnly(old(bc.w), {a, b}) ==> UsedOnly(bc.w, {})
    {
      hide Inv, B.Bcache.Valid, Put, Unlock, UsedOnly;
      ghost var all := UsedOnly(bc.w, {a, b});
      var _ := bc.Brelse(a);
      ReleaseStage(old(bc.w), a, m);
      ghost var w1 := bc.w;
      var _ := bc.Brelse(b);
      ReleaseStage(w1, b, n);
      if all {
        UsesOne(old(bc.w), w1, {a, b}, a);
        assert {a, b} - {a} == {b} && {b} - {b} == {};
        UsesOne(w1, bc.w, {b}, b);
      }
    }

    /** New contents in a held buffer, and bwrite. */
    method PutBlock(b: nat, ghost n: nat, d: Block, ghost s: set<nat>)
      requires bc.Valid() && Inv(bc.w) && Held(bc.w, b, n)
      modifies bc
      ensures n < |old(bc.w).disk| && bc.Valid() && Inv(bc.w) && Held(bc.w, b, n) && OtherSlotsSame(old(bc.w), bc.w, b)
      ensures bc.w.disk == old(bc.w).disk[n := d] && bc.w.logged == old(bc.w).logged
      ensures bc.w.slots[b].touched == (n in bc.w.logged && bc.w.logged[n].data != d)
      ensures bc.trace == old(bc.trace) + [bc.w.disk] && (UsedOnly(old(bc.w), s) ==> UsedOnly(bc.w, s))
    {
      hide Inv, B.Bcache.Valid, Write, UsedOnly;
      ghost var w := bc.w;
      WriteStage(w, b, n, d);
      bc.Store(b, d);
      var ok := bc.Bwrite(b);
      if UsedOnly(w, s) { UsesOne(w, bc.w, s, b); }
    }

    /** One iteration of write_log: a cached block goes to its log block; false is a "no buffers" panic. */
    method CopyToLog(tail: nat) returns (ok: bool)
      requires Idle() && tail < |lh| && Loggable(l, bc.w.disk, lh)
      requires forall n :: n in bc.w.logged ==> !InLog(l, n)
      modifies bc
      ensures ok ==> Idle() && bc.w.logged == old(bc.w).logged
      ensures ok ==> bc.w.disk == old(bc.w).disk[l.start + tail + 1 := View(old(bc.w), lh[tail])]
      ensures bc.trace == if ok then old(bc.trace) + [bc.w.disk] else old(bc.trace)
      ensures Roomy(old(bc.w), lh[tail]) ==> ok && UsedOnly(bc.w, {})
      ensures |old(bc.w).logged| == NBUF ==> !ok
    {
      hide Inv, B.Bcache.Valid, Write, Roomy, UsedOnly;
      var n := l.start + tail + 1;
      assert InLog(l, n) && n !in bc.w.logged;
      var two := BreadTwo(n, lh[tail]);
      if two.None? { return false; }
      var (to, from) := two.value;
      var d := bc.Load(from);
      PutBlock(to, n, d, {to, from});
      assert {to, from} == {from, to};
      BrelseTwo(from, lh[tail], to, n);
      ok := true;
    }

    /** One iteration of install_trans: a log block goes home, and outside recovery its pin goes away. */
    method InstallOne(tail: nat, recovering: bool) returns (ok: bool)
      requires Idle() && tail < |lh| && Loggable(l, bc.w.disk, lh)
      requires forall n :: n in bc.w.logged ==> !InLog(l, n)
      requires if recovering then lh[tail] !in bc.w.logged
               else lh[tail] in bc.w.logged && bc.w.logged[lh[tail]].data == bc.w.disk[l.start + tail + 1]
      modifies bc
      ensures ok ==> Idle() && bc.w.logged == old(bc.w).logged - {lh[tail]}
      ensures ok ==> bc.w.disk == old(bc.w).disk[lh[tail] := old(bc.w).disk[l.start + tail + 1]]
      ensures bc.trace == if ok then old(bc.trace) + [bc.w.disk] else old(bc.trace)
      ensures Roomy(old(bc.w), lh[tail]) ==> ok && UsedOnly(bc.w, {})
    {
      hide Inv, B.Bcache.Valid, Write, Unpin, Roomy, UsedOnly;
      var n := l.start + tail + 1;
      assert InLog(l, n) && n !in bc.w.logged;
      var two := BreadTwo(n, lh[tail]);
      if two.None? { return false; }
      var (lbuf, dbuf) := two.value;
      var d := bc.Load(lbuf);
      PutBlock(dbuf, lh[tail], d, {lbuf, dbuf});
      if !recovering {
        ghost var w3 := bc.w;
        UnpinStage(w3, dbuf, lh[tail]);
        bc.Bunpin(dbuf);
        if Roomy(old(bc.w), lh[tail]) { UsesOne(w3, bc.w, {lbuf, dbuf}, dbuf); }
      }
      ok := true;
      assert bc.w.logged == old(bc.w).logged - {lh[tail]};
      BrelseTwo(lbuf, n, dbuf, lh[tail]);
    }

    /** write_head: the in-memory header goes to disk in one write. */
    method WriteHead() returns (ok: bool)
      requires Idle() && l.start < |bc.w.disk| && l.start !in bc.w.logged && |lh| <= LOGSIZE
      modifies bc
      ensures ok ==> Idle() && bc.w.logged == old(bc.w).logged
      ensures ok ==> bc.w.disk == old(bc.w).disk[l.start := PutHeader(old(bc.w).disk[l.start], lh)]
      ensures bc.trace == if ok then old(bc.trace) + [bc.w.disk] else old(bc.trace)
      ensures UsedOnly(old(bc.w), {}) && |old(bc.w).logged| < NBUF ==> ok && UsedOnly(bc.w, {})
    {
      hide Inv, B.Bcache.Valid, Write, UsedOnly;
      var buf := BreadOne(l.start);
      if buf.None? { return false; }
      var hb := bc.Load(buf.value);
      hb := PutHeader(hb, lh);
      PutBlock(buf.value, l.start, hb, {buf.value});
      BrelseOne(buf.value, l.start);
      ok := true;
    }

    /** write_log at block `tail`, with the blocks before it written since world w and trace t. */
    ghost predicate Logging(w: World, t: seq<Disk>, tail: nat)
      requires Loggable(l, w.disk, lh) && tail <= |lh|
      reads this, bc
    {
      && Idle() && bc.w.logged == w.logged && bc.w.disk == LogWritten(l, w.disk, Pending(w, lh), tail)
      && bc.trace == t + LogTrace(l, w.disk, Pending(w, lh), tail)
    }

    /** One iteration of write_log in its place. */
    method LogNext(tail: nat, ghost w: World, ghost t: seq<Disk>) returns (ok: bool)
      requires Loggable(l, w.disk, lh) && tail < |lh| && Logging(w, t, tail)
      requires forall n :: n in w.logged ==> !InLog(l, n)
      modifies bc
      ensures if ok then Logging(w, t, tail + 1) else bc.trace == t + LogTrace(l, w.disk, Pending(w, lh), tail)
      ensures Ready(w, lh, false) && UsedOnly(old(bc.w), {}) ==> ok && UsedOnly(bc.w, {})
      ensures |w.logged| == NBUF ==> !ok
    {
      hide Inv, B.Bcache.Valid, AllFree, LogTrace, InLog, Ready, Roomy, UsedOnly, LogWritten, View;
      if Ready(w, lh, false) && UsedOnly(bc.w, {}) {
        ReadySame(w, bc.w, lh, false);
        ReadyOne(bc.w, lh, false, tail);
      }
      LogReady(w, bc.w, l, lh, tail);
      LogTraceGrows(l, w.disk, Pending(w, lh), tail);
      ok := CopyToLog(tail);
    }

    /** write_log; m log blocks were written, all of them unless a panic stopped it. */
    method WriteLog() returns (ok: bool, ghost m: nat)
      requires Idle() && Loggable(l, bc.w.disk, lh)
      requires forall n :: n in bc.w.logged ==> !InLog(l, n)
      modifies bc
      ensures m <= |lh| && (ok ==> m == |lh|)
      ensures ok ==> Idle() && bc.w.logged == old(bc.w).logged
      ensures ok ==> bc.w.disk == LogWritten(l, old(bc.w).disk, Pending(old(bc.w), lh), |lh|)
      ensures bc.trace == old(bc.trace) + LogTrace(l, old(bc.w).disk, Pending(old(bc.w), lh), m)
      ensures Ready(old(bc.w), lh, false) ==> ok && UsedOnly(bc.w, {})
      ensures |old(bc.w).logged| == NBUF && lh != [] ==> !ok
    {
      hide Idle, LogTrace, InLog, Ready, UsedOnly, LogWritten, Pending, Loggable;
      ghost var w, t, ready := bc.w, bc.trace, Ready(bc.w, lh, false);
      if ready { ReadyOnly(w, lh, false); }
      NothingLogged(l, w, lh);
      m := 0;
      for tail := 0 to |lh|
        invariant Logging(w, t, tail) && m == tail && (ready ==> UsedOnly(bc.w, {}))
        invariant |w.logged| == NBUF ==> tail == 0
      {
        ok := LogNext(tail, w, t);
        if !ok { return; }
        m := m + 1;
      }
      ok := true;
    }

    /** install_trans at block `tail`, with the blocks before it installed over disk d, and the trace since t. */
    ghost predicate Installing(d: Disk, logged: map<nat, Entry>, t: seq<Disk>, tail: nat)
      requires Loggable(l, d, lh) && tail <= |lh|
      reads this, bc
    {
      && Idle() && bc.w.logged == logged - SeqSet(lh[..tail]) && bc.w.disk == Install(l, d, lh, tail)
      && bc.trace == t + HomeTrace(l, d, lh, tail)
    }

    /** One iteration of install_trans in its place. */
    method InstallNext(tail: nat, recovering: bool, ghost d: Disk, ghost logged: map<nat, Entry>, ghost t: seq<Disk>,
                       ghost ready: bool)
      returns (ok: bool)
      requires LogHolds(l, d, lh, logged, recovering) && tail < |lh| && Installing(d, logged, t, tail)
      requires ready ==> |logged| < NBUF && (recovering ==> logged == map[]) && UsedOnly(bc.w, {})
      modifies bc
      ensures if ok then Installing(d, logged, t, tail + 1) else bc.trace == t + HomeTrace(l, d, lh, tail)
      ensures ready ==> ok && UsedOnly(bc.w, {})
    {
      hide Inv, B.Bcache.Valid, AllFree, InLog, SeqSet, Roomy, UsedOnly, Install, HomeTrace;
      InstallReady(l, d, lh, logged, tail, recovering);
      HomeTraceGrows(l, d, lh, tail);
      if ready { InstallRoomy(logged, bc.w, lh, recovering, tail); }
      ok := InstallOne(tail, recovering);
    }

    /** install_trans; m home blocks were written, all of them unless a panic stopped it. */
    method InstallTrans(recovering: bool) returns (ok: bool, ghost m: nat)
      requires Idle() && LogHolds(l, bc.w.disk, lh, bc.w.logged, recovering)
      modifies bc
      ensures m <= |lh| && (ok ==> m == |lh|)
      ensures ok ==> Idle() && bc.w.logged == map[]
      ensures ok ==> bc.w.disk == Install(l, old(bc.w).disk, lh, |lh|)
      ensures bc.trace == old(bc.trace) + HomeTrace(l, old(bc.w).disk, lh, m)
      ensures Ready(old(bc.w), lh, recovering) ==> ok && UsedOnly(bc.w, {})
    {
      hide Idle, HomeTrace, SeqSet, Ready, UsedOnly, Install, Loggable, LogHolds;
      ghost var t := bc.trace;
      HoldsLoggable(l, bc.w.disk, lh, bc.w.logged, recovering);
      ghost var d, logged, ready := bc.w.disk, bc.w.logged, Ready(bc.w, lh, recovering);
      if ready { ReadyMeans(bc.w, lh, recovering); }
      NothingInstalled(l, d, lh);
      m := 0;
      InstallStartEnd(l, d, lh, logged, recovering);
      for tail := 0 to |lh|
        invariant Installing(d, logged, t, tail) && m == tail && (ready ==> UsedOnly(bc.w, {}))
      {
        ok := InstallNext(tail, recovering, d, logged, t, ready);
        if !ok { return; }
        m := m + 1;
      }
      ok := true;
    }

    /** install_trans, then an empty header: the end of commit() and of recover_from_log(); k writes happened. */
    method InstallAndErase(recovering: bool) returns (ok: bool, ghost k: nat)
      requires Idle() && LogHolds(l, bc.w.disk, lh, bc.w.logged, recovering)
      modifies this`lh, bc
      ensures k <= |old(lh)| + 1 && (ok ==> k == |old(lh)| + 1)
      ensures |InstallTrace(l, old(bc.w).disk, old(lh))| == |old(lh)| + 2
      ensures bc.trace == old(bc.trace) + Writes(InstallTrace(l, old(bc.w).disk, old(lh)), k)
      ensures ok ==> && Idle() && bc.w.logged == map[] && lh == []
                     && bc.w.disk == Erase(l, Install(l, old(bc.w).disk, old(lh), |old(lh)|))
      ensures Ready(old(bc.w), old(lh), recovering) ==> ok && UsedOnly(bc.w, {})
    {
      hide Inv, B.Bcache.Valid, AllFree, HomeTrace, InLog, SeqSet, InstallTrace, Writes, Ready, UsedOnly;
      ghost var d, blocks := bc.w.disk, lh;
      ok, k := InstallTrans(recovering);
      InstallPrefix(l, d, blocks, k);
      if !ok { return; }
      lh := [];
      ok := WriteHead();
      if !ok { return; }
      k := k + 1;
    }

    /** The first half of commit(): the log blocks, then the header; m of these writes happened. */
    method LogAndHead() returns (ok: bool, ghost m: nat)
      requires Idle() && Loggable(l, bc.w.disk, lh) && l.start !in bc.w.logged
      requires forall n :: n in bc.w.logged ==> !InLog(l, n)
      modifies bc
      ensures m <= |lh| + 1 && (ok ==> m == |lh| + 1)
      ensures !ok ==> m <= |lh|
      ensures var d, t := old(bc.w).disk, Pending(old(bc.w), lh);
        bc.trace == old(bc.trace) + if ok then LogTrace(l, d, t, |lh|) + [Headed(l, d, t)] else LogTrace(l, d, t, m)
      ensures ok ==> Idle() && bc.w.logged == old(bc.w).logged
      ensures ok ==> bc.w.disk == Headed(l, old(bc.w).disk, Pending(old(bc.w), lh))
      ensures Ready(old(bc.w), lh, false) ==> ok && Ready(bc.w, lh, false)
      ensures |old(bc.w).logged| == NBUF && lh != [] ==> !ok
    {
      hide Inv, B.Bcache.Valid, AllFree, LogTrace, InLog, LogWritten, PutHeader, View, Ready, UsedOnly;
      if Ready(bc.w, lh, false) { ReadyOnly(bc.w, lh, false); }
      ok, m := WriteLog();
      if !ok { return; }
      ok := WriteHead();
      if !ok { return; }
      if Ready(old(bc.w), lh, false) { ReadySame(old(bc.w), bc.w, lh, false); }
      m := m + 1;
    }

    /**
     * commit().  The disk goes through a prefix of CommitTrace, of m writes
     * after the state it started in; a panic for want of buffers only cuts it
     * short.  A commit that finishes leaves the home blocks as the cache showed
     * them, the log empty and nothing pinned.  With nobody at a buffer it
     * finishes exactly if the log does not have a block for every buffer.
     */
    method Commit() returns (ok: bool, ghost m: nat)
      requires Idle() && Quiet(l, bc.w.disk) && Loggable(l, bc.w.disk, lh) && bc.w.logged.Keys == SeqSet(lh)
      modifies this`lh, bc
      ensures var tr := CommitTrace(l, old(bc.w).disk, Pending(old(bc.w), old(lh)));
              && m < |tr| && (ok ==> m == if old(lh) == [] then 0 else |tr| - 1)
              && bc.trace == old(bc.trace) + Writes(tr, m)
      ensures ok ==> Idle() && bc.w.logged == map[] && lh == [] && Quiet(l, bc.w.disk)
      ensures ok ==> && |bc.w.disk| == |old(bc.w).disk|
                     && forall n :: 0 <= n < |bc.w.disk| && !InLog(l, n) ==> bc.w.disk[n] == View(old(bc.w), n)
      ensures UsedOnly(old(bc.w), {}) ==> (ok <==> |old(lh)| < NBUF) && (ok ==> UsedOnly(bc.w, {}))
    {
      hide Inv, B.Bcache.Valid, AllFree, LogTrace, InstallTrace, CommitTrace, Writes, Install, InLog, Erase,
        LogWritten, PutHeader, LogHolds, View, Ready, UsedOnly;
      CommitBuffers(bc.w, l, lh);
      ghost var d, t := bc.w.disk, Pending(bc.w, lh);
      ghost var tr, h := CommitTrace(l, d, t), Headed(l, d, t);
      CommitPrefix(l, d, t, 0, 0);
      CommitReady(bc.w, l, lh);
      CommitShowsView(bc.w, l, lh);
      if lh == [] { return true, 0; }
      ok, m := LogAndHead();
      if !ok {
        CommitPrefix(l, d, t, m, 0);
        return;
      }
      ghost var k;
      ok, k := InstallAndErase(false);
      CommitPrefix(l, d, t, 0, k);
      m := m + k;
    }

    /** read_head: the on-disk header becomes the in-memory one. */
    method ReadHead() returns (ok: bool)
      requires Idle() && WellFormed(l, bc.w.disk) && l.start !in bc.w.logged
      modifies this`lh, bc
      ensures bc.trace == old(bc.trace)
      ensures ok ==> Idle() && bc.w.disk == old(bc.w).disk && bc.w.logged == old(bc.w).logged
      ensures ok ==> lh == HeaderBlocks(bc.w.disk[l.start])
      ensures UsedOnly(old(bc.w), {}) && |old(bc.w).logged| < NBUF ==> ok && UsedOnly(bc.w, {})
    {
      hide Inv, B.Bcache.Valid, UsedOnly;
      var buf := BreadOne(l.start);
      if buf.None? { return false; }
      ghost var w1 := bc.w;
      var hb := bc.Load(buf.value);
      var n := hb[0];
      lh := [];
      for i := 0 to n
        invariant bc.w == w1 && bc.Valid() && bc.trace == old(bc.trace)
        invariant lh == hb[1..1 + i]
      {
        assert hb[1..1 + i] + [hb[1 + i]] == hb[1..2 + i];
        assert HeaderBlocks(hb)[i] == hb[1 + i];
        lh := lh + [hb[1 + i]];
      }
      BrelseOne(buf.value, l.start);
      ok := true;
    }

    /**
     * recover_from_log: the disk goes through a prefix of RecoveryTrace, of m
     * writes, all of them unless it panics, which it does not with nobody at a buffer.
     */
    method RecoverFromLog() returns (ok: bool, ghost m: nat)
      requires Idle() && WellFormed(l, bc.w.disk) && bc.w.logged == map[]
      modifies this`lh, bc
      ensures var tr := RecoveryTrace(l, old(bc.w).disk);
              && m < |tr| && (ok ==> m == |tr| - 1)
              && bc.trace == old(bc.trace) + Writes(tr, m)
      ensures ok ==> Idle() && lh == [] && bc.w.logged == map[] && bc.w.disk == Recovered(l, old(bc.w).disk)
      ensures UsedOnly(old(bc.w), {}) ==> ok && UsedOnly(bc.w, {})
    {
      hide Inv, B.Bcache.Valid, AllFree, Install, InLog, Erase, Ready, UsedOnly;
      ok := ReadHead();
      if !ok { return false, 0; }
      if UsedOnly(bc.w, {}) { RecoveryReady(bc.w, lh); }
      ok, m := InstallAndErase(true);
    }

    /**
     * log_write of a buffer its caller holds, within operation op; false is one
     * of its two panics.  A block already in the log is absorbed, a new one is
     * appended and pinned.  An operation within its budget takes a step of the
     * admission protocol; with budget left it cannot panic in a log that is
     * large enough.
     */
    method LogWrite(b: nat, ghost op: nat) returns (ok: bool)
      requires bc.Valid() && b < |bc.w.slots| && bc.w.logged.Keys == SeqSet(lh)
      modifies this`lh, this`ops, this`run, bc
      ensures bc.Valid() && bc.trace == old(bc.trace)
      ensures ok == (|old(lh)| < LOGSIZE && |old(lh)| < l.size - 1 && outstanding >= 1)
      ensures !ok ==> lh == old(lh) && bc.w == old(bc.w)
      ensures ok ==> bc.w == BufferCache.LogWrite(old(bc.w), b) && bc.w.logged.Keys == SeqSet(lh)
      ensures ok ==> var n := old(bc.w).slots[b].buf.blockno;
                     lh == if n in old(lh) then old(lh) else old(lh) + [n]
      ensures old(Admits() && Awake()) ==> Awake()
      ensures var write := A.Write(op, old(bc.w).slots[b].buf.blockno);
              old(Admits()) && A.Enabled(old(Admission()), write) ==>
                && (ok <==> !A.TooBig(l.size, old(Admission()))) && (ok ==> Steps(write))
                && (l.size - 1 >= LOGSIZE && old(ops)[op] < MAXOPBLOCKS ==> ok)
    {
      hide B.Bcache.Valid, BufferCache.LogWrite, A.Reachable, SeqSet;
      ghost var n := bc.w.slots[b].buf.blockno;
      ghost var ready := Admits() && A.Enabled(Admission(), A.Write(op, n));
      ok := Append(b);
      if ready {
        WriteAdmitted(l.size, run, A.State(old(lh), ops, committing), op, n);
        if ok {
          run := run + [A.Write(op, n)];
          ops := A.Take(A.State(old(lh), ops, committing), A.Write(op, n)).ops;
        }
      }
    }

    /** The guards of log_write, its search and its pin. */
    method Append(b: nat) returns (ok: bool)
      requires bc.Valid() && b < |bc.w.slots| && bc.w.logged.Keys == SeqSet(lh)
      modifies this`lh, bc
      ensures bc.Valid() && bc.trace == old(bc.trace)
      ensures ok == (|old(lh)| < LOGSIZE && |old(lh)| < l.size - 1 && outstanding >= 1)
      ensures !ok ==> lh == old(lh) && bc.w == old(bc.w)
      ensures ok ==> bc.w == BufferCache.LogWrite(old(bc.w), b) && bc.w.logged.Keys == SeqSet(lh)
      ensures ok ==> var n := old(bc.w).slots[b].buf.blockno;
                     lh == if n in old(lh) then old(lh) else old(lh) + [n]
    {
      hide B.Bcache.Valid;
      if |lh| >= LOGSIZE || |lh| >= l.size - 1 { return false; }
      if outstanding < 1 { return false; }
      var n := bc.BlockOf(b);
      var i := 0;
      while i < |lh|
        invariant 0 <= i <= |lh| && n !in lh[..i]
      {
        if lh[i] == n { break; }
        i := i + 1;
      }
      if i == |lh| {
        assert n !in SeqSet(lh);
        lh := lh + [n];
        bc.Bpin(b);
      } else {
        lh := lh[i := n];
        assert lh == old(lh) && n in SeqSet(lh);
        bc.Absorb(b);
      }
      return true;
    }

    /**
     * One pass of the loop in begin_op for operation op: it takes the step Begin
     * exactly when the protocol admits it, and sleeps otherwise.
     */
    method BeginOp(ghost op: nat) returns (admitted: bool)
      requires Admits() && op !in ops
      modifies this`outstanding, this`ops, this`run, this`asleep
      ensures admitted <==> A.Enabled(old(Admission()), A.Begin(op))
      ensures if admitted then Steps(A.Begin(op)) else Admits() && Admission() == old(Admission())
      ensures asleep == if admitted then old(asleep) else old(asleep) + {op}
      ensures old(Awake()) ==> Awake()
    {
      if committing {
        asleep := asleep + {op};
        return false;
      } else if |lh| + (outstanding + 1) * MAXOPBLOCKS > LOGSIZE {
        asleep := asleep + {op};
        return false;
      } else {
        A.ReachableMore(l.size, run, Admission(), A.Begin(op));
        outstanding := outstanding + 1;
        run := run + [A.Begin(op)];
        assert ops[op := 0].Keys == ops.Keys + {op};
        ops := ops[op := 0];
        return true;
      }
    }

    /**
     * end_op of operation op up to the release of log.lock: the step End.  Its
     * "log.committing" panic is not reached.  The last operation has to commit,
     * any other wakes all that wait.
     */
    method EndOp(ghost op: nat) returns (commit: bool)
      requires Admits() && op in ops
      modifies this`outstanding, this`committing, this`ops, this`run, this`asleep
      ensures Steps(A.End(op)) && (commit <==> ops == map[]) && (commit ==> committing)
      ensures asleep == if commit then old(asleep) else {}
      ensures Awake()
    {
      A.AdmissionIsSafe(l.size, run, Admission());
      A.ReachableMore(l.size, run, Admission(), A.End(op));
      NotIdle(ops, op);
      outstanding := outstanding - 1;
      assert !committing;
      run := run + [A.End(op)];
      ops := ops - {op};
      assert outstanding == |ops| && (ops == map[] <==> |ops| == 0);
      if outstanding == 0 {
        committing := true;
        return true;
      }
      asleep := {};
      return false;
    }

    /**
     * The rest of end_op for the last operation: commit(), and the log opens
     * again: the step CommitDone, with every home block as the cache showed it.
     * Whoever waited is woken.
     */
    method CommitAndReopen() returns (ok: bool, ghost m: nat)
      requires Admits() && committing
      requires Idle() && Quiet(l, bc.w.disk) && Loggable(l, bc.w.disk, lh) && bc.w.logged.Keys == SeqSet(lh)
      modifies this`lh, this`committing, this`run, this`asleep, bc
      ensures var tr := CommitTrace(l, old(bc.w).disk, Pending(old(bc.w), old(lh)));
              m < |tr| && bc.trace == old(bc.trace) + Writes(tr, m)
      ensures ok ==> asleep == {} && Awake() && lh == []
      ensures UsedOnly(old(bc.w), {}) ==> (ok <==> |old(lh)| < NBUF) && (ok ==> UsedOnly(bc.w, {}))
      ensures ok ==> Steps(A.CommitDone) && Idle() && bc.w.logged == map[] && Quiet(l, bc.w.disk)
      ensures ok ==> && |bc.w.disk| == |old(bc.w).disk|
                     && forall n :: 0 <= n < |bc.w.disk| && !InLog(l, n) ==> bc.w.disk[n] == View(old(bc.w), n)
    {
      hide Inv, B.Bcache.Valid, AllFree, InLog, View;
      ghost var state := Admission();
      ok, m := Commit();
      if !ok { return; }
      A.ReachableMore(l.size, run, state, A.CommitDone);
      run := run + [A.CommitDone];
      committing, asleep := false, {};
    }
  }
}
