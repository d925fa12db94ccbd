/**
 * The virtio disk driver of kernel/virtio_disk.c in place, with a conforming
 * device.  A driver method runs under vdisk_lock from acquire to release or
 * sleep.  The device takes no lock: it makes the moves it is given between the
 * driver's stores to what it can see, and inside the interrupt loop.
 */
module VirtioDisk {
  import opened Blocks
  import opened Options
  import opened Virtqueue

  /** One store, or run of stores nobody can tell apart, by the device. */
  datatype Move = TakeOne | DoOne(h: nat) | EntryOne(h: nat) | ReportOne

  /** What the device's moves leave alone: all that the driver writes, and which requests there are. */
  ghost predicate DeviceOnly(q: Queue, g: Past, q': Queue, g': Past) {
    && q'.desc == q.desc && q'.free == q.free && q'.ops == q.ops && q'.busy == q.busy && q'.driver == q.driver
    && q'.availRing == q.availRing && q'.availIdx == q.availIdx && q'.seenIdx == q.seenIdx
    && g'.owner == g.owner && g'.posted == g.posted && g'.seen == g.seen && g'.first == g.first
    && g.log <= g'.log && SameRequests(g, g') && Unseen(g'.reqs) == Unseen(g.reqs)
    && Honest(q.data, g, q'.data, g')
  }

  /** The transfer that did a request, if it was done. */
  function Transfer(phase: Phase): Option<nat> {
    match phase
    case Stated(at) => Some(at)
    case Written(at) => Some(at)
    case Served(_, at) => Some(at)
    case Seen(at) => Some(at)
    case _ => None
  }

  /** Transfer k did a request that is in flight. */
  ghost predicate OnRequest(g: Past, k: nat)
    requires k < |g.log|
  {
    exists h :: h in g.reqs && Transfer(g.reqs[h].phase) == Some(k) && g.reqs[h].job == g.log[k].job
  }

  /** A request stays what it was, and done once it is done. */
  ghost predicate Continues(g: Past, g': Past, h: nat)
    requires h in g.reqs
  {
    && h in g'.reqs && SameRequest(g'.reqs[h], g.reqs[h])
    && (Transfer(g.reqs[h].phase).Some? ==> Transfer(g'.reqs[h].phase) == Transfer(g.reqs[h].phase))
  }

  ghost predicate ReadInto(g: Past, from: nat, b: nat) {
    exists k :: from <= k < |g.log| && g.log[k].job.b == b && !g.log[k].job.write
  }

  /** Every new transfer did a request in flight, and a buffer changed only by a new transfer that read into it. */
  ghost predicate Honest(data: map<nat, Block>, g: Past, data': map<nat, Block>, g': Past) {
    && g.log <= g'.log
    && (forall h :: h in g.reqs ==> Continues(g, g', h))
    && (forall k :: |g.log| <= k < |g'.log| ==> OnRequest(g', k))
    && (forall b :: At(data', b) == At(data, b) || ReadInto(g', |g.log|, b))
  }

  lemma HonestTrans(d: map<nat, Block>, g: Past, d1: map<nat, Block>, g1: Past, d2: map<nat, Block>, g2: Past)
    requires Honest(d, g, d1, g1) && Honest(d1, g1, d2, g2)
    ensures Honest(d, g, d2, g2)
  {
    hide At;
    forall h | h in g.reqs ensures Continues(g, g2, h) { assert Continues(g, g1, h) && Continues(g1, g2, h); }
    forall k | |g.log| <= k < |g2.log| ensures OnRequest(g2, k) {
      if k < |g1.log| {
        assert OnRequest(g1, k);
        var h :| h in g1.reqs && Transfer(g1.reqs[h].phase) == Some(k) && g1.reqs[h].job == g1.log[k].job;
        assert Continues(g1, g2, h);
      }
    }
    forall b ensures At(d2, b) == At(d, b) || ReadInto(g2, |g.log|, b) {
      if At(d1, b) != At(d, b) {
        assert ReadInto(g1, |g.log|, b);
        var k :| |g.log| <= k < |g1.log| && g1.log[k].job.b == b && !g1.log[k].job.write;
        assert g2.log[k] == g1.log[k];
      } else if At(d2, b) != At(d1, b) {
        assert ReadInto(g2, |g1.log|, b);
      }
    }
  }

  lemma HonestSame(data: map<nat, Block>, g: Past)
    ensures Honest(data, g, data, g)
  {
    hide At;
    forall h | h in g.reqs ensures Continues(g, g, h) {}
  }

  /** A request moves on to another phase. */
  lemma HonestPhase(data: map<nat, Block>, g: Past, g': Past, h: nat, phase: Phase)
    requires h in g.reqs && g'.reqs == g.reqs[h := g.reqs[h].(phase := phase)] && g'.log == g.log
    requires Transfer(g.reqs[h].phase).Some? ==> Transfer(phase) == Transfer(g.reqs[h].phase)
    ensures Honest(data, g, data, g')
  {
    hide At;
    forall x | x in g.reqs ensures Continues(g, g', x) {}
  }

  lemma HonestDo(q: Queue, g: Past, h: nat)
    requires InPhase(g, h, Taken) && h < |q.info|
    ensures Honest(q.data, g, StateQ(q, h, g.reqs[h].job, h).data, StateG(q, g, h))
  {
    var g', k := StateG(q, g, h), |g.log|;
    forall x | x in g.reqs ensures Continues(g, g', x) {}
    assert g'.log[k].job == g'.reqs[h].job && Transfer(g'.reqs[h].phase) == Some(k);
    forall b ensures At(StateQ(q, h, g.reqs[h].job, h).data, b) == At(q.data, b) || ReadInto(g', k, b) {
      if !g.reqs[h].job.write && b == g.reqs[h].job.b { assert g'.log[k].job.b == b; }
    }
  }

  lemma HonestFormat(q: Queue, g: Past, h: nat, m: nat, l: nat, job: Job)
    requires h !in g.reqs && |g.owner| == NUM && h < NUM && m < NUM && l < NUM
    ensures Honest(q.data, g, q.data, FormatG(q, g, h, m, l, job))
  {
    hide At;
    var g' := FormatG(q, g, h, m, l, job);
    forall x | x in g.reqs ensures Continues(g, g', x) { assert g'.reqs[x] == g.reqs[x]; }
  }

  ghost predicate SameRequests(g: Past, g': Past) {
    g'.reqs.Keys == g.reqs.Keys && forall h :: h in g.reqs ==> SameRequest(g'.reqs[h], g.reqs[h])
  }

  /** The requests that the interrupt has still to see. */
  ghost function Unseen(reqs: map<nat, Req>): set<nat> {
    set h | h in reqs && !reqs[h].phase.Seen?
  }

  lemma DeviceOnlyTrans(q: Queue, g: Past, q1: Queue, g1: Past, q2: Queue, g2: Past)
    requires DeviceOnly(q, g, q1, g1) && DeviceOnly(q1, g1, q2, g2)
    ensures DeviceOnly(q, g, q2, g2)
  {
    hide Honest;
    HonestTrans(q.data, g, q1.data, g1, q2.data, g2);
  }

  lemma DeviceOnlySame(q: Queue, g: Past)
    ensures DeviceOnly(q, g, q, g)
  {
    hide Honest;
    HonestSame(q.data, g);
  }

  lemma TakeEffect(q: Queue, g: Past)
    requires Inv(q, g)
    ensures |q.availRing| == NUM && (q.deviceIdx != q.availIdx <==> g.taken < |g.posted|)
    ensures g.taken <= |g.posted|
    ensures q.deviceIdx != q.availIdx ==>
      && NextAvail(q) == g.posted[g.taken] && NextAvail(q) in g.reqs && Inv(TakeQ(q), TakeG(g, NextAvail(q)))
      && DeviceOnly(q, g, TakeQ(q), TakeG(g, NextAvail(q)))
  {
    hide Rings, ReqOk, Partition, Transfers, Places, Honest;
    NextPosted(q, g);
    if q.deviceIdx != q.availIdx {
      TakeKeepsInv(q, g);
      HonestPhase(q.data, g, TakeG(g, NextAvail(q)), NextAvail(q), Taken);
    }
  }

  lemma DoEffect(q: Queue, g: Past, h: nat)
    requires Inv(q, g) && h in q.hand && !q.hand[h]
    ensures InPhase(g, h, Taken) && h < |q.info| && JobAt(q.desc, q.ops, h) == Some(g.reqs[h].job)
    ensures StatusAt(q.desc, h) == Some(h)
    ensures Inv(StateQ(q, h, g.reqs[h].job, h), StateG(q, g, h))
    ensures DeviceOnly(q, g, StateQ(q, h, g.reqs[h].job, h), StateG(q, g, h))
  {
    hide Rings, ReqOk, Partition, Transfers, JobAt, StatusAt, DeviceOnly;
    DeviceReadsRequest(q, g, h);
    StateKeepsInv(q, g, h);
    DoOnly(q, g, h);
  }

  lemma DoOnly(q: Queue, g: Past, h: nat)
    requires InPhase(g, h, Taken) && h < |q.info|
    ensures DeviceOnly(q, g, StateQ(q, h, g.reqs[h].job, h), StateG(q, g, h))
  {
    hide Honest;
    HonestDo(q, g, h);
  }

  lemma EntryEffect(q: Queue, g: Past, h: nat)
    requires Inv(q, g) && h in q.hand && q.hand[h] && q.device == Ready
    ensures h in g.reqs && g.reqs[h].phase.Stated? && |q.usedRing| == NUM
    ensures Inv(EntryQ(q, h), EntryG(g, h)) && DeviceOnly(q, g, EntryQ(q, h), EntryG(g, h))
  {
    hide Rings, ReqOk, Partition, Transfers, Honest;
    EntryKeepsInv(q, g, h);
    HonestPhase(q.data, g, EntryG(g, h), h, Written(g.reqs[h].phase.at));
  }

  lemma ReportEffect(q: Queue, g: Past)
    requires Inv(q, g) && q.device.Wrote?
    ensures q.device.h in g.reqs && g.reqs[q.device.h].phase.Written?
    ensures Inv(ReportQ(q), ReportG(g, q.device.h)) && DeviceOnly(q, g, ReportQ(q), ReportG(g, q.device.h))
  {
    hide Rings, ReqOk, Partition, Transfers, Places, Honest;
    var h := q.device.h;
    ReportKeepsInv(q, g, h);
    HonestPhase(q.data, g, ReportG(g, h), h, Served(|g.served|, g.reqs[h].phase.at));
  }

  /** What a driver in the middle of its stores keeps knowing. */
  lemma DeviceOnlyMeans(q: Queue, g: Past, q': Queue, g': Past)
    requires DeviceOnly(q, g, q', g')
    ensures q'.driver == q.driver && q'.seenIdx == q.seenIdx && g'.posted == g.posted
    ensures g.log <= g'.log && SameRequests(g, g') && Unseen(g'.reqs) == Unseen(g.reqs)
    ensures Honest(q.data, g, q'.data, g')
  {
    hide Honest;
  }

  lemma SameRequestsSelf(g: Past)
    ensures SameRequests(g, g)
  {
  }

  lemma SameRequestsTrans(g: Past, g1: Past, g2: Past)
    requires SameRequests(g, g1) && SameRequests(g1, g2)
    ensures SameRequests(g, g2)
  {
  }

  lemma RingEffect(q: Queue, g: Past, h: nat)
    requires Inv(q, g) && q.driver == Posting(h)
    ensures h in g.reqs && |q.availRing| == NUM && Inv(RingQ(q, h), SetPhase(g, h, Ringed))
    ensures SameRequests(g, SetPhase(g, h, Ringed)) && Honest(q.data, g, q.data, SetPhase(g, h, Ringed))
  {
    hide Rings, ReqOk, Partition, Transfers, Honest;
    RingKeepsInv(q, g, h);
    HonestPhase(q.data, g, SetPhase(g, h, Ringed), h, Ringed);
  }

  lemma PublishEffect(q: Queue, g: Past, h: nat)
    requires Inv(q, g) && q.driver == Ringing(h)
    ensures h in g.reqs && Inv(PublishQ(q), PublishG(g, h)) && SameRequests(g, PublishG(g, h))
    ensures Honest(q.data, g, q.data, PublishG(g, h))
  {
    hide Rings, ReqOk, Partition, Transfers, Honest;
    PublishKeepsInv(q, g, h);
    HonestPhase(q.data, g, PublishG(g, h), h, Posted(|g.posted|));
  }

  lemma LookEffect(q: Queue, g: Past)
    requires Inv(q, g)
    ensures |q.usedRing| == NUM && (q.seenIdx != q.usedIdx <==> g.seen < |g.served|) && g.seen <= |g.served|
    ensures q.driver == Idle && q.seenIdx != q.usedIdx ==> Inv(LookQ(q), g)
  {
    hide Rings, ReqOk, Partition, Transfers, Places;
    NextCompletion(q, g);
    if q.driver == Idle && q.seenIdx != q.usedIdx { LookKeepsInv(q, g); }
  }

  lemma SeeEffect(q: Queue, g: Past, h: nat)
    requires Inv(q, g) && q.driver == Handling(h)
    ensures h < |q.info| && LiveCompletion(q, g, h) && Inv(SeeQ(q, g.reqs[h].job.b), SeeG(g, h))
    ensures SameRequests(g, SeeG(g, h)) && h in Unseen(g.reqs) && Unseen(SeeG(g, h).reqs) == Unseen(g.reqs) - {h}
    ensures Honest(q.data, g, q.data, SeeG(g, h))
  {
    hide Rings, ReqOk, Partition, Transfers, Places, Honest;
    SeeKeepsInv(q, g, h);
    HonestPhase(q.data, g, SeeG(g, h), h, Seen(g.reqs[h].phase.at));
  }

  lemma StillDid(q: Queue, g: Past, q': Queue, g': Past, r: Req, at: nat)
    requires Did(q, g, r, at) && q'.data == q.data && g'.log == g.log
    ensures Did(q', g', r, at)
  {
  }

  lemma ShapeOf(q: Queue, g: Past)
    requires Inv(q, g)
    ensures Shape(q, g)
  {
  }

  lemma FormatEffect(q: Queue, g: Past, h: nat, m: nat, l: nat, job: Job)
    requires Inv(q, g) && q.driver == Idle && h < NUM && m < NUM && l < NUM && h != m && h != l && m != l
    requires |q.free| == NUM && q.free[h] && q.free[m] && q.free[l]
    requires job.b !in q.busy && forall x :: x in g.reqs ==> g.reqs[x].job.b != job.b
    ensures h !in g.reqs && Shape(q, g) && Inv(FormatQ(q, h, m, l, job), FormatG(q, g, h, m, l, job))
  {
    hide Rings, ReqOk, Partition, Transfers, Places;
    FormatKeepsInv(q, g, h, m, l, job);
    NotInUse(q, g, h);
  }

  class Disk {
    var desc: seq<Desc>
    var free: seq<bool>
    var ops: seq<Op>
    var info: seq<Info>
    var availRing: seq<nat>
    var availIdx: nat
    var usedRing: seq<nat>
    var usedIdx: nat
    var seenIdx: nat
    var busy: set<nat>
    var data: map<nat, Block>
    var disk: map<nat, Block>
    var deviceIdx: nat
    var device: Device
    var hand: map<nat, bool>
    ghost var driver: Driver
    ghost var past: Past

    ghost function Now(): Queue
      reads this
    {
      Queue(desc, free, ops, info, availRing, availIdx, usedRing, usedIdx, seenIdx, busy, deviceIdx, hand, data, disk,
            driver, device)
    }

    ghost predicate Valid()
      reads this
    {
      Inv(Now(), past)
    }

    constructor (data: map<nat, Block>, disk: map<nat, Block>)
      ensures Valid() && World(Now(), past) == Boot(data, disk)
    {
      desc := seq(NUM, _ => CLEAR);
      free := seq(NUM, _ => true);
      ops := seq(NUM, _ => Op(false, 0));
      info := seq(NUM, _ => Info(None, 0));
      availRing, availIdx := seq(NUM, _ => 0), 0;
      usedRing, usedIdx := seq(NUM, _ => 0), 0;
      seenIdx, busy, deviceIdx := 0, {}, 0;
      this.data, this.disk, driver, device, hand := data, disk, Idle, Ready, map[];
      past := Past(seq(NUM, _ => None), map[], [], 0, [], 0, [], disk);
      new;
      assert forall i :: 0 <= i < NUM ==> DescOwned(Now(), past, i);
    }

    // ---- The device ----

    /** It takes the entry at its place, if the index says there is one: the oldest request it has not taken. */
    method DeviceTake()
      requires Valid()
      modifies this`deviceIdx, this`hand, this`past
      ensures Valid() && DeviceOnly(old(Now()), old(past), Now(), past)
      ensures old(past.taken < |past.posted|) ==>
        past.taken == old(past.taken) + 1 && InPhase(past, past.posted[old(past.taken)], Taken)
      ensures old(past.taken == |past.posted|) ==> past == old(past)
    {
      hide Inv, DeviceOnly;
      DeviceOnlySame(Now(), past);
      TakeEffect(Now(), past);
      if deviceIdx == availIdx { return; }
      var h := availRing[deviceIdx % NUM];
      deviceIdx := (deviceIdx + 1) % U16;
      hand := hand[h := false];
      past := TakeG(past, h);
    }

    /** It makes the transfer that the chain of a request in its hands describes, and zeroes the status byte. */
    method DeviceDo(h: nat)
      requires Valid() && h in hand && !hand[h]
      modifies this`info, this`data, this`disk, this`hand, this`past
      ensures Valid() && DeviceOnly(old(Now()), old(past), Now(), past)
      ensures h in old(past.reqs) && past == StateG(old(Now()), old(past), h)
    {
      hide Inv, DeviceOnly, JobAt, StatusAt, StateG, At;
      ghost var q := Now();
      DoEffect(q, past, h);
      var job, i := JobAt(desc, ops, h).value, StatusAt(desc, h).value;
      assert job == past.reqs[h].job && i == h;
      if job.write {
        disk := disk[job.sector := At(data, job.b)];
      } else {
        data := data[job.b := At(disk, job.sector)];
      }
      info := info[i := Info(info[i].b, 0)];
      hand := hand[h := true];
      past := StateG(q, past, h);
      assert Now() == StateQ(q, h, job, i);
    }

    /** It writes the head of a request it did to the used ring. */
    method DeviceEntry(h: nat)
      requires Valid() && h in hand && hand[h] && device == Ready
      modifies this`usedRing, this`hand, this`device, this`past
      ensures Valid() && DeviceOnly(old(Now()), old(past), Now(), past)
      ensures h in old(past.reqs) && old(past.reqs[h].phase.Stated?) && past == EntryG(old(past), h)
    {
      hide Inv, DeviceOnly;
      EntryEffect(Now(), past, h);
      usedRing := usedRing[usedIdx % NUM := h];
      device := Wrote(h);
      hand := hand - {h};
      past := EntryG(past, h);
    }

    /** It raises the used index. */
    method DeviceReport()
      requires Valid() && device.Wrote?
      modifies this`usedIdx, this`device, this`past
      ensures Valid() && DeviceOnly(old(Now()), old(past), Now(), past)
      ensures past.served == old(past.served) + [old(device.h)]
    {
      hide Inv, DeviceOnly;
      ReportEffect(Now(), past);
      usedIdx := (usedIdx + 1) % U16;
      past := ReportG(past, device.h);
      device := Ready;
    }

    /** Any number of moves of the device; one that it cannot make is skipped. */
    method RunDevice(moves: seq<Move>)
      requires Valid()
      modifies this`deviceIdx, this`hand, this`info, this`data, this`disk
      modifies this`usedRing, this`usedIdx, this`device, this`past
      ensures Valid() && DeviceOnly(old(Now()), old(past), Now(), past)
    {
      hide Inv, DeviceOnly;
      DeviceOnlySame(Now(), past);
      var i := 0;
      while i < |moves|
        invariant 0 <= i <= |moves| && Valid() && DeviceOnly(old(Now()), old(past), Now(), past)
      {
        ghost var q, g := Now(), past;
        DeviceOnlySame(q, g);
        match moves[i] {
          case TakeOne => DeviceTake();
          case DoOne(h) => if h in hand && !hand[h] { DeviceDo(h); }
          case EntryOne(h) => if device == Ready && h in hand && hand[h] { DeviceEntry(h); }
          case ReportOne => if device.Wrote? { DeviceReport(); }
        }
        DeviceOnlyTrans(old(Now()), old(past), q, g, Now(), past);
        i := i + 1;
      }
    }

    // ---- The driver ----

    /** alloc_desc: the first free descriptor, or -1. */
    method AllocDesc() returns (r: int)
      requires |free| == NUM
      modifies this`free
      ensures r == -1 ==> free == old(free) && forall i :: 0 <= i < NUM ==> !free[i]
      ensures r != -1 ==> 0 <= r < NUM && old(free)[r] && free == old(free)[r := false]
      ensures forall i :: 0 <= i < r ==> !old(free)[i]
    {
      var i := 0;
      while i < NUM
        invariant 0 <= i <= NUM && free == old(free) && forall k :: 0 <= k < i ==> !free[k]
      {
        if free[i] {
          free := free[i := false];
          return i;
        }
        i := i + 1;
      }
      r := -1;
    }

    /** free_desc; what it requires rules out both of its panics. */
    method FreeDesc(i: nat)
      requires |free| == |desc| == NUM && i < NUM && !free[i]
      modifies this`free, this`desc
      ensures free == old(free)[i := true] && desc == old(desc)[i := CLEAR]
    {
      desc := desc[i := CLEAR];
      free := free[i := true];
    }

    /** free_chain follows the links of a three-long chain. */
    method FreeChain(h: nat, ghost m: nat, ghost l: nat)
      requires |free| == |desc| == NUM && h < NUM && m < NUM && l < NUM && h != m && h != l && m != l
      requires !free[h] && !free[m] && !free[l]
      requires desc[h].more && desc[h].next == m && desc[m].more && desc[m].next == l && !desc[l].more
      modifies this`free, this`desc
      ensures free == old(free)[h := true][m := true][l := true]
      ensures desc == old(desc)[h := CLEAR][m := CLEAR][l := CLEAR]
    {
      var i := h;
      ghost var left := 3;
      while true
        invariant 1 <= left <= 3 && |free| == |desc| == NUM
        invariant left == 3 ==> i == h && free == old(free) && desc == old(desc)
        invariant left == 2 ==> i == m && free == old(free)[h := true] && desc == old(desc)[h := CLEAR]
        invariant left == 1 ==>
          i == l && free == old(free)[h := true][m := true] && desc == old(desc)[h := CLEAR][m := CLEAR]
        decreases left
      {
        var flag, nxt := desc[i].more, desc[i].next;
        FreeDesc(i);
        if !flag { break; }
        i := nxt;
        left := left - 1;
      }
    }

    /** alloc3_desc: three free descriptors; or none, with all it took given back. */
    method Alloc3Desc() returns (ok: bool, h: nat, m: nat, l: nat)
      requires |free| == |desc| == NUM && forall i :: 0 <= i < NUM && free[i] ==> desc[i] == CLEAR
      modifies this`free, this`desc
      ensures desc == old(desc)
      ensures ok ==> h < NUM && m < NUM && l < NUM && h != m && h != l && m != l
      ensures ok ==> old(free)[h] && old(free)[m] && old(free)[l]
      ensures ok ==> free == old(free)[h := false][m := false][l := false]
      ensures !ok ==> free == old(free)
      ensures !ok ==> forall a, b, c :: 0 <= a < b < c < NUM ==> !(free[a] && free[b] && free[c])
    {
      ok, h, m, l := false, 0, 0, 0;
      var i := AllocDesc();
      if i == -1 { return; }
      var j := AllocDesc();
      if j == -1 {
        FreeDesc(i);
        return;
      }
      var k := AllocDesc();
      if k == -1 {
        FreeDesc(i);
        FreeDesc(j);
        return;
      }
      ok, h, m, l := true, i, j, k;
    }

    /** The three descriptors, the header and b->disk of a request. */
    method Format(h: nat, m: nat, l: nat, b: nat, write: bool, sector: nat)
      requires |desc| == |free| == |ops| == |info| == NUM && h < NUM && m < NUM && l < NUM
      requires !free[h] && !free[m] && !free[l]
      modifies this`desc, this`ops, this`info, this`busy, this`driver
      ensures ops == old(ops)[h := Op(write, sector)] && info == old(info)[h := Info(Some(b), 0xff)]
      ensures desc == old(desc)[h := Desc(HeaderOf(h), 16, true, false, m)]
                               [m := Desc(DataOf(b), BSIZE, true, !write, l)]
                               [l := Desc(StatusOf(h), 1, false, true, 0)]
      ensures busy == old(busy) + {b} && driver == Posting(h)
    {
      ops := ops[h := Op(write, sector)];
      desc := desc[h := Desc(HeaderOf(h), 16, true, false, m)];
      desc := desc[m := Desc(DataOf(b), BSIZE, true, !write, l)];
      info := info[h := Info(info[h].b, 0xff)];
      desc := desc[l := Desc(StatusOf(h), 1, false, true, 0)];
      busy := busy + {b};
      info := info[h := Info(Some(b), info[h].status)];
      driver := Posting(h);
    }

    /** The request of descriptors just taken from the free ones of q. */
    method Build(h: nat, m: nat, l: nat, b: nat, write: bool, sector: nat, ghost q: Queue)
      requires Shape(q, past) && h < NUM && m < NUM && l < NUM
      requires Now() == q.(free := q.free[h := false][m := false][l := false])
      requires Inv(FormatQ(q, h, m, l, Job(write, sector, b)), FormatG(q, past, h, m, l, Job(write, sector, b)))
      modifies this`desc, this`ops, this`info, this`busy, this`driver, this`past
      ensures Valid() && driver == Posting(h) && past == FormatG(q, old(past), h, m, l, Job(write, sector, b))
    {
      hide Inv;
      Format(h, m, l, b, write, sector);
      past := FormatG(q, past, h, m, l, Job(write, sector, b));
      assert Now() == FormatQ(q, h, m, l, Job(write, sector, b));
    }

    /** Three descriptors, if there are as many, made into the chain of a request. */
    method Alloc3Format(b: nat, write: bool, sector: nat) returns (ok: bool, h: nat, m: nat, l: nat)
      requires Valid() && driver == Idle && b !in busy && forall x :: x in past.reqs ==> past.reqs[x].job.b != b
      modifies this`desc, this`free, this`ops, this`info, this`busy, this`driver, this`past
      ensures Valid()
      ensures !ok ==> Now() == old(Now()) && past == old(past)
      ensures !ok ==> |free| == NUM && forall x, y, z :: 0 <= x < y < z < NUM ==> !(free[x] && free[y] && free[z])
      ensures ok ==> h !in old(past.reqs) && driver == Posting(h)
      ensures ok ==> past.log == old(past.log) && past.posted == old(past.posted)
      ensures ok ==>
        past.reqs == old(past.reqs)[h := Req(Job(write, sector, b), m, l, |old(past.log)|, At(old(data), b), Formatted)]
      ensures ok ==> Honest(data, old(past), data, past)
    {
      hide Inv, Honest;
      ghost var q, g := Now(), past;
      ShapeOf(q, g);
      FreeAreClear(q, g);
      ok, h, m, l := Alloc3Desc();
      if !ok { return; }
      FormatEffect(q, g, h, m, l, Job(write, sector, b));
      HonestFormat(q, g, h, m, l, Job(write, sector, b));
      Build(h, m, l, b, write, sector, q);
    }

    /**
     * virtio_disk_rw from taking the lock until it sleeps: for want of three
     * descriptors, with nothing changed, or for its request, now published.  The
     * device makes any moves before and after the ring entry and after the index;
     * they do requests in flight and change no other buffer.
     */
    method Submit(b: nat, write: bool, blockno: nat, before: seq<Move>, between: seq<Move>, after: seq<Move>)
      returns (ok: bool, h: nat)
      requires Valid() && driver == Idle && b !in busy && forall x :: x in past.reqs ==> past.reqs[x].job.b != b
      modifies this
      ensures Valid() && driver == Idle && Honest(old(data), old(past), data, past)
      ensures !ok ==> Now() == old(Now()) && past == old(past)
      ensures !ok ==> forall x, y, z :: 0 <= x < y < z < NUM ==> !(free[x] && free[y] && free[z])
      ensures ok ==> h !in old(past.reqs) && past.reqs.Keys == old(past.reqs.Keys) + {h}
      ensures ok ==> past.posted == old(past.posted) + [h]
      ensures ok ==> past.reqs[h].job == Job(write, blockno * (BSIZE / 512), b)
      ensures ok ==> past.reqs[h].since == |old(past.log)| && past.reqs[h].sent == At(old(data), b)
      ensures ok ==> forall x :: x in old(past.reqs) ==> SameRequest(past.reqs[x], old(past.reqs)[x])
    {
      hide Rings, ReqOk, Partition, Transfers, Places, Honest;
      HonestSame(data, past);
      var m, l;
      ok, h, m, l := Alloc3Format(b, write, blockno * (BSIZE / 512));
      if !ok { return; }
      ghost var data1, past1 := data, past;
      Publish(h, before, between, after);
      HonestTrans(old(data), old(past), data1, past1, data, past);
    }

    method WriteEntry(h: nat)
      requires Valid() && driver == Posting(h)
      modifies this`availRing, this`driver, this`past
      ensures Valid() && driver == Ringing(h) && SameRequests(old(past), past) && Honest(data, old(past), data, past)
      ensures past.log == old(past.log) && past.posted == old(past.posted)
    {
      hide Inv, Honest;
      RingEffect(Now(), past, h);
      availRing := availRing[availIdx % NUM := h];
      driver := Ringing(h);
      past := SetPhase(past, h, Ringed);
    }

    method RaiseIndex(h: nat)
      requires Valid() && driver == Ringing(h)
      modifies this`availIdx, this`driver, this`past
      ensures Valid() && driver == Idle && SameRequests(old(past), past) && Honest(data, old(past), data, past)
      ensures past.log == old(past.log) && past.posted == old(past.posted) + [h]
    {
      hide Inv, Honest;
      PublishEffect(Now(), past, h);
      availIdx := (availIdx + 1) % U16;
      driver := Idle;
      past := PublishG(past, h);
    }

    /** The ring entry and then the index, with the device at work. */
    method Publish(h: nat, before: seq<Move>, between: seq<Move>, after: seq<Move>)
      requires Valid() && driver == Posting(h)
      modifies this
      ensures Valid() && driver == Idle && Honest(old(data), old(past), data, past)
      ensures SameRequests(old(past), past) && past.posted == old(past.posted) + [h]
    {
      hide Inv, DeviceOnly, SameRequests, Unseen, Honest;
      ghost var q, g := Now(), past;
      RunDevice(before);
      DeviceOnlyMeans(q, g, Now(), past);
      ghost var d1, g1 := data, past;
      WriteEntry(h);
      SameRequestsTrans(g, g1, past);
      HonestTrans(q.data, g, d1, g1, data, past);
      ghost var q2, g2 := Now(), past;
      RunDevice(between);
      DeviceOnlyMeans(q2, g2, Now(), past);
      SameRequestsTrans(g, g2, past);
      HonestTrans(q.data, g, q2.data, g2, data, past);
      ghost var d3, g3 := data, past;
      RaiseIndex(h);
      SameRequestsTrans(g, g3, past);
      HonestTrans(q.data, g, d3, g3, data, past);
      ghost var q4, g4 := Now(), past;
      RunDevice(after);
      DeviceOnlyMeans(q4, g4, Now(), past);
      SameRequestsTrans(g, g4, past);
      HonestTrans(q.data, g, q4.data, g4, data, past);
    }

    /** virtio_disk_rw when it wakes: it sleeps again while b->disk is 1, else frees its chain and returns. */
    method Finish(h: nat, b: nat) returns (done: bool)
      requires Valid() && driver == Idle && h in past.reqs && past.reqs[h].job.b == b
      modifies this`info, this`desc, this`free, this`past
      ensures Valid() && past.log == old(past.log)
      ensures !done ==> Now() == old(Now()) && past == old(past) && b in busy
      ensures done ==> past.reqs == old(past.reqs) - {h}
      ensures done ==> exists at :: Did(Now(), past, old(past.reqs[h]), at)
    {
      hide Inv, Did;
      ghost var q, g := Now(), past;
      ShapeOf(q, g);
      ReturnsAfterOwnCompletion(q, g, h);
      if b in busy { return false; }
      FinishKeepsInv(q, g, h);
      ChainInUse(q, g, h);
      ghost var r := past.reqs[h];
      info := info[h := Info(None, info[h].status)];
      FreeChain(h, r.mid, r.last);
      past := FinishG(past, h, r.mid, r.last);
      assert Now() == FinishQ(q, h, r.mid, r.last);
      StillDid(q, g, Now(), past, r, r.phase.at);
      done := true;
    }

    /** The rest of one pass of the interrupt loop, after the entry was read. */
    method MarkSeen(id: nat)
      requires Valid() && driver == Handling(id)
      modifies this`busy, this`seenIdx, this`driver, this`past
      ensures Valid() && driver == Idle && past.log == old(past.log) && SameRequests(old(past), past)
      ensures id in Unseen(old(past.reqs)) && Unseen(past.reqs) == Unseen(old(past.reqs)) - {id}
      ensures Honest(data, old(past), data, past)
    {
      hide Inv, SameRequests, Unseen, Honest;
      SeeEffect(Now(), past, id);
      assert info[id].status == 0;
      busy := busy - {info[id].b.value};
      seenIdx := (seenIdx + 1) % U16;
      driver := Idle;
      past := SeeG(past, id);
    }

    /** One pass of the loop of virtio_disk_intr; the device moves between its reading of the entry and the rest. */
    method HandleOne(during: seq<Move>)
      requires Valid() && driver == Idle && seenIdx != usedIdx
      modifies this
      ensures Valid() && driver == Idle && SameRequests(old(past), past) && Honest(old(data), old(past), data, past)
      ensures |Unseen(past.reqs)| < |Unseen(old(past.reqs))|
    {
      hide Inv, DeviceOnly, SameRequests, Unseen, Honest;
      LookEffect(Now(), past);
      var id := usedRing[seenIdx % NUM];
      driver := Handling(id);
      ghost var q, g := Now(), past;
      RunDevice(during);
      DeviceOnlyMeans(q, g, Now(), past);
      ghost var d1, g1 := data, past;
      MarkSeen(id);
      SameRequestsTrans(g, g1, past);
      HonestTrans(q.data, g, d1, g1, data, past);
    }

    /**
     * virtio_disk_intr: sees every completion there is when it ends, also those
     * the device adds meanwhile; its panic on a status other than 0 is not reached.
     */
    method Interrupt(during: seq<seq<Move>>)
      requires Valid() && driver == Idle
      modifies this
      ensures Valid() && driver == Idle && past.seen == |past.served|
      ensures SameRequests(old(past), past) && Honest(old(data), old(past), data, past)
      ensures forall h :: h in past.reqs ==> !past.reqs[h].phase.Served?
    {
      hide Inv, SameRequests, Unseen, Honest;
      SameRequestsSelf(past);
      HonestSame(data, past);
      var n := 0;
      while seenIdx != usedIdx
        invariant Valid() && driver == Idle && SameRequests(old(past), past)
        invariant Honest(old(data), old(past), data, past)
        decreases |Unseen(past.reqs)|
      {
        ghost var d, g := data, past;
        HandleOne(if n < |during| then during[n] else []);
        SameRequestsTrans(old(past), g, past);
        HonestTrans(old(data), old(past), d, g, data, past);
        n := n + 1;
      }
      LookEffect(Now(), past);
      forall h | h in past.reqs ensures !past.reqs[h].phase.Served? { AllSeen(Now(), past, h); }
    }
  }
}
