/** The request queue of the SD card driver (kern/sd.c, sdrw and sd_intr): processes put buffers on
    a list and sleep; the interrupt handler completes the first one and starts the next.  Each method
    is what runs under sdlock at one go; the calls come in any order. */
module SdQueue {
  import opened CircularList
  import opened Layout
  import opened Options

  datatype Buf = Buf(blockno: nat, valid: bool, dirty: bool, data: Block)

  /** What the card is busy with; a write carries the words that sd_start sent. */
  datatype Flight = Flight(b: nat, write: bool, payload: Block)

  /** A process in sdrw: asleep on its buffer, or woken and not yet back. */
  datatype Caller = Out | Asleep(b: nat) | Awake(b: nat)

  /** What a caller of sdrw came with: its buffer, and what was on the card in its block. */
  datatype Ask = Ask(x: Buf, found: Block)

  const POISON: nat := 0x100100

  /** A caller is asleep while its buffer is queued and as it came; once it is awake the request is carried
      out: a dirty buffer is on the card, and any other is what was there, and neither is dirty now. */
  ghost predicate CallerOk(x: Caller, a: Ask, buf: seq<Buf>, queue: seq<nat>, card: seq<Block>) {
    match x
    case Out => true
    case Asleep(b) =>
      && b < |buf| && b in queue && buf[b] == a.x && (!a.x.valid || a.x.dirty)
      && a.x.blockno < |card| && (!a.x.dirty ==> card[a.x.blockno] == a.found)
    case Awake(b) =>
      && b < |buf| && b !in queue && buf[b] == Buf(a.x.blockno, true, false, if a.x.dirty then a.x.data else a.found)
      && a.x.blockno < |card| && card[a.x.blockno] == buf[b].data
  }

  /** Two callers do not have the same buffer, nor buffers of the same block. */
  ghost predicate Apart(x: Caller, y: Caller, buf: seq<Buf>) {
    x != Out && y != Out && x.b < |buf| && y.b < |buf| ==> buf[x.b].blockno != buf[y.b].blockno
  }

  ghost predicate HasSleeper(caller: seq<Caller>, b: nat) { exists p :: 0 <= p < |caller| && caller[p] == Asleep(b) }

  ghost predicate CallersOk(caller: seq<Caller>, asked: seq<Ask>, buf: seq<Buf>, queue: seq<nat>, card: seq<Block>) {
    && |asked| == |caller|
    && (forall p | 0 <= p < |caller| :: CallerOk(caller[p], asked[p], buf, queue, card))
    && (forall p, q | 0 <= p < |caller| && 0 <= q < |caller| && p != q :: Apart(caller[p], caller[q], buf))
    && (forall i | 0 <= i < |queue| :: HasSleeper(caller, queue[i]))
  }

  /** A new caller whose block nobody else has. */
  lemma Joined(caller: seq<Caller>, asked: seq<Ask>, buf: seq<Buf>, queue: seq<nat>, card: seq<Block>, p: nat, b: nat)
    requires CallersOk(caller, asked, buf, queue, card) && p < |caller| && caller[p] == Out && b < |buf| && buf[b].blockno < |card| && (!buf[b].valid || buf[b].dirty)
    requires forall q | 0 <= q < |caller| && caller[q] != Out :: caller[q].b < |buf| && buf[caller[q].b].blockno != buf[b].blockno
    ensures b !in queue && CallersOk(caller[p := Asleep(b)], asked[p := Ask(buf[b], card[buf[b].blockno])], buf, queue + [b], card)
  {
    var c', q', a' := caller[p := Asleep(b)], queue + [b], asked[p := Ask(buf[b], card[buf[b].blockno])];
    forall i | 0 <= i < |queue| ensures queue[i] != b {
      assert HasSleeper(caller, queue[i]);
    }
    assert c'[p] == Asleep(q'[|queue|]);
    forall i | 0 <= i < |queue| ensures HasSleeper(c', q'[i]) {
      assert HasSleeper(caller, queue[i]);
      var q :| 0 <= q < |caller| && caller[q] == Asleep(queue[i]);
      assert c'[q] == Asleep(q'[i]);
    }
    forall q | 0 <= q < |c'| ensures CallerOk(c'[q], a'[q], buf, q', card) {
      assert CallerOk(caller[q], asked[q], buf, queue, card);
    }
    forall q, r | 0 <= q < |c'| && 0 <= r < |c'| && q != r ensures Apart(c'[q], c'[r], buf) {
      assert Apart(caller[q], caller[r], buf);
    }
  }

  /** A write to the block of the first request disturbs no caller. */
  lemma Landed(caller: seq<Caller>, asked: seq<Ask>, buf: seq<Buf>, queue: seq<nat>, card: seq<Block>, data: Block)
    requires CallersOk(caller, asked, buf, queue, card) && queue != [] && queue[0] < |buf| && buf[queue[0]].blockno < |card|
    requires buf[queue[0]].dirty
    ensures CallersOk(caller, asked, buf, queue, card[buf[queue[0]].blockno := data])
  {
    assert HasSleeper(caller, queue[0]);
    var s :| 0 <= s < |caller| && caller[s] == Asleep(queue[0]);
    forall p | 0 <= p < |caller| ensures CallerOk(caller[p], asked[p], buf, queue, card[buf[queue[0]].blockno := data]) {
      assert CallerOk(caller[p], asked[p], buf, queue, card) && CallerOk(caller[s], asked[s], buf, queue, card);
      assert p != s ==> Apart(caller[p], caller[s], buf);
    }
  }

  ghost function WokenBy(x: Caller, b: nat): Caller { if x == Asleep(b) then Awake(b) else x }

  /** The first request is carried out, and its caller woken. */
  lemma Finished(caller: seq<Caller>, asked: seq<Ask>, buf: seq<Buf>, queue: seq<nat>, card: seq<Block>, caller': seq<Caller>, buf': seq<Buf>)
    requires CallersOk(caller, asked, buf, queue, card) && queue != [] && queue[0] < |buf| && buf[queue[0]].blockno < |card|
    requires queue[0] !in queue[1..] && |caller'| == |caller|
    requires buf[queue[0]].dirty ==> card[buf[queue[0]].blockno] == buf[queue[0]].data
    requires forall p | 0 <= p < |caller| :: caller'[p] == WokenBy(caller[p], queue[0])
    requires buf' == buf[queue[0] := Buf(buf[queue[0]].blockno, true, false, card[buf[queue[0]].blockno])]
    ensures CallersOk(caller', asked, buf', queue[1..], card)
  {
    var b := queue[0];
    assert HasSleeper(caller, queue[0]);
    var s :| 0 <= s < |caller| && caller[s] == Asleep(b);
    forall p | 0 <= p < |caller| ensures CallerOk(caller'[p], asked[p], buf', queue[1..], card) {
      assert CallerOk(caller[p], asked[p], buf, queue, card) && CallerOk(caller[s], asked[s], buf, queue, card);
      assert p != s ==> Apart(caller[p], caller[s], buf);
    }
    forall p, q | 0 <= p < |caller| && 0 <= q < |caller| && p != q ensures Apart(caller'[p], caller'[q], buf') {
      assert Apart(caller[p], caller[q], buf);
    }
    forall i | 0 <= i < |queue[1..]| ensures HasSleeper(caller', queue[1..][i]) {
      assert HasSleeper(caller, queue[i + 1]);
      var q :| 0 <= q < |caller| && caller[q] == Asleep(queue[i + 1]);
      assert caller'[q] == Asleep(queue[1..][i]);
    }
  }

  /** A caller leaves that is not asleep. */
  lemma Left(caller: seq<Caller>, asked: seq<Ask>, buf: seq<Buf>, queue: seq<nat>, card: seq<Block>, p: nat)
    requires CallersOk(caller, asked, buf, queue, card) && p < |caller| && caller[p].Awake?
    ensures CallersOk(caller[p := Out], asked, buf, queue, card)
  {
    var c' := caller[p := Out];
    forall i | 0 <= i < |queue| ensures HasSleeper(c', queue[i]) {
      assert HasSleeper(caller, queue[i]);
      var q :| 0 <= q < |caller| && caller[q] == Asleep(queue[i]);
      assert c'[q] == Asleep(queue[i]);
    }
    forall q | 0 <= q < |c'| ensures CallerOk(c'[q], asked[q], buf, queue, card) {
      assert CallerOk(caller[q], asked[q], buf, queue, card);
    }
    forall q, r | 0 <= q < |c'| && 0 <= r < |c'| && q != r ensures Apart(c'[q], c'[r], buf) {
      assert Apart(caller[q], caller[r], buf);
    }
  }

  /** A buffer that nobody is in sdrw with is given other contents. */
  lemma Changed(caller: seq<Caller>, asked: seq<Ask>, buf: seq<Buf>, queue: seq<nat>, card: seq<Block>, b: nat, x: Buf)
    requires CallersOk(caller, asked, buf, queue, card) && b < |buf| && forall p | 0 <= p < |caller| && caller[p] != Out :: caller[p].b != b
    ensures CallersOk(caller, asked, buf[b := x], queue, card) && b !in queue
  {
    var buf' := buf[b := x];
    forall i | 0 <= i < |queue| ensures queue[i] != b {
      assert HasSleeper(caller, queue[i]);
    }
    forall q | 0 <= q < |caller| ensures CallerOk(caller[q], asked[q], buf', queue, card) {
      assert CallerOk(caller[q], asked[q], buf, queue, card);
    }
    forall q, r | 0 <= q < |caller| && 0 <= r < |caller| && q != r ensures Apart(caller[q], caller[r], buf') {
      assert Apart(caller[q], caller[r], buf);
    }
  }

  class Driver {
    const count: nat                  // buffers; node `count` is the list head sdque
    var next: seq<nat>
    var prev: seq<nat>
    var buf: seq<Buf>
    var caller: seq<Caller>
    ghost var queue: seq<nat>         // the members of the list
    ghost var flight: Option<Flight>
    ghost var card: seq<Block>
    ghost var asked: seq<Ask>         // per caller, what it came with
    ghost var issued: seq<nat>        // buffers in the order of the calls of sdrw
    ghost var completed: seq<nat>     // buffers in the order of completion

    ghost predicate Valid()
      reads this
    {
      && |buf| == count && |next| == count + 1 && Linked(next, prev, count, queue)
      && (forall b | 0 <= b < count :: buf[b].blockno < |card|)
      && CallersOk(caller, asked, buf, queue, card)
      && (if queue == [] then flight == None
          else queue[0] < count && flight == Some(Flight(queue[0], buf[queue[0]].dirty, buf[queue[0]].data)))
      && issued == completed + queue
    }

    /** INIT_LIST_HEAD, and no caller. */
    constructor (buf: seq<Buf>, callers: nat, ghost card: seq<Block>)
      requires forall b | 0 <= b < |buf| :: buf[b].blockno < |card|
      ensures Valid() && queue == issued == completed == [] && this.buf == buf && this.card == card && caller == seq(callers, _ => Out)
    {
      count, this.buf, this.caller, this.card := |buf|, buf, seq(callers, _ => Out), card;
      asked := seq(callers, _ => Ask(Buf(0, false, false, Zeroes()), Zeroes()));
      next, prev := seq(|buf| + 1, _ => |buf|), seq(|buf| + 1, _ => |buf|);
      queue, flight, issued, completed := [], None, [], [];
    }

    method ListEmpty() returns (r: bool)
      requires Valid()
      ensures r <==> queue == []
    {
      assert LinkedAt(next, prev, count, queue, -1);
      r := next[count] == count;
    }

    /** The command and, for a write, the data go to the card. */
    method SdStart(b: nat)
      requires b < |buf|
      modifies this`flight
      ensures flight == Some(Flight(b, buf[b].dirty, buf[b].data))
    {
      flight := Some(Flight(b, buf[b].dirty, buf[b].data));
    }

    method ListAddTail(b: nat)
      requires |next| == count + 1 && Linked(next, prev, count, queue) && b < count && b !in queue
      modifies this`next, this`prev, this`queue
      ensures |next| == count + 1 && Linked(next, prev, count, queue) && queue == old(queue) + [b]
    {
      ghost var n: seq<nat>, q: seq<nat>, items: seq<nat> := next, prev, queue;
      assert LinkedAt(next, prev, count, queue, |queue| - 1);
      var last := prev[count];
      prev := prev[count := b];
      next := next[b := count];
      prev := prev[b := last];
      next := next[last := b];
      queue := queue + [b];
      assert next == n[b := count][last := b];
      assert prev == q[b := last][count := b];
      LinkBetween(n, q, next, prev, count, items, |items|, b, queue);
    }

    /** list_del of the first member. */
    method ListDelFirst()
      requires |next| == count + 1 && Linked(next, prev, count, queue) && queue != []
      modifies this`next, this`prev, this`queue
      ensures |next| == count + 1 && Linked(next, prev, count, queue) && queue == old(queue)[1..] && old(queue)[0] !in queue
    {
      ghost var n: seq<nat>, q: seq<nat>, items: seq<nat> := next, prev, queue;
      assert LinkedAt(next, prev, count, queue, -1) && LinkedAt(next, prev, count, queue, 0);
      var e := next[count];
      var before, after := prev[e], next[e];
      prev := prev[after := before];
      next := next[before := after];
      queue := queue[1..];
      Unlink(n, q, next, prev, count, items, 0, queue);
      ghost var n1: seq<nat>, q1: seq<nat> := next, prev;
      next := next[e := POISON];
      prev := prev[e := POISON];
      Poisoned(n1, q1, next, prev, count, queue, e);
    }

    /** sdrw up to the first sleep.  Not ok is the panic on a buffer with nothing to do. */
    method Sdrw(p: nat, b: nat) returns (ok: bool)
      requires Valid() && p < |caller| && caller[p] == Out && b < count
      requires forall q | 0 <= q < |caller| && caller[q] != Out :: caller[q].b < count && buf[caller[q].b].blockno != buf[b].blockno
      modifies this`next, this`prev, this`queue, this`flight, this`issued, this`caller, this`asked
      ensures Valid() && (ok <==> !buf[b].valid || buf[b].dirty)
      ensures !ok ==> queue == old(queue) && issued == old(issued) && caller == old(caller) && flight == old(flight) && asked == old(asked)
      ensures ok ==> asked == old(asked)[p := Ask(buf[b], card[buf[b].blockno])]
      ensures ok ==> queue == old(queue) + [b] && issued == old(issued) + [b] && caller == old(caller)[p := Asleep(b)]
      ensures old(queue) != [] ==> flight == old(flight)
    {
      assert |asked| == |caller|;
      hide CallersOk;
      if buf[b].valid && !buf[b].dirty {
        return false;
      }
      Joined(caller, asked, buf, queue, card, p, b);
      var empty := ListEmpty();
      ListAddTail(b);
      if empty {
        SdStart(b);
      }
      issued := issued + [b];
      caller := caller[p := Asleep(b)];
      asked := asked[p := Ask(buf[b], card[buf[b].blockno])];
      return true;
    }

    /** wakeup(b) */
    method Wakeup(b: nat)
      modifies this`caller
      ensures |caller| == |old(caller)|
      ensures forall p | 0 <= p < |caller| :: caller[p] == WokenBy(old(caller)[p], b)
    {
      for p := 0 to |caller|
        invariant |caller| == |old(caller)|
        invariant forall q | 0 <= q < |caller| ::
                    caller[q] == if q < p then WokenBy(old(caller)[q], b) else old(caller)[q]
      {
        if caller[p] == Asleep(b) {
          caller := caller[p := Awake(b)];
        }
      }
    }

    /** The interrupt handler, for the interrupt register with the bits INT_DATA_DONE, INT_READ_RDY and
        others.  words is what the card delivers; landed says that the write in flight is on the card.
        Not ok is the assertion on an interrupt with neither bit. */
    method SdIntr(dataDone: bool, readRdy: bool, others: bool, words: Block, ghost landed: bool) returns (ok: bool)
      requires Valid()
      requires flight.Some? && !flight.value.write ==> words == card[buf[flight.value.b].blockno]
      requires dataDone && !readRdy && !others ==> landed
      modifies this
      ensures Valid() && issued == old(issued) && asked == old(asked)
      ensures ok <==> old(queue) == [] || dataDone || readRdy
      ensures card == if old(flight).Some? && old(flight).value.write && landed
                      then old(card)[old(buf)[old(flight).value.b].blockno := old(flight).value.payload] else old(card)
      ensures old(queue) == [] || !ok || (old(buf)[old(queue)[0]].dirty && !(dataDone && !readRdy && !others)) ==>
                queue == old(queue) && completed == old(completed) && buf == old(buf) && caller == old(caller) && flight == old(flight)
      ensures old(queue) != [] && ok && !(old(buf)[old(queue)[0]].dirty && !(dataDone && !readRdy && !others)) ==>
                var b := old(queue)[0];
                && queue == old(queue)[1..] && completed == old(completed) + [b]
                && buf == old(buf)[b := old(buf)[b].(valid := true, dirty := false, data := card[old(buf)[b].blockno])]
                && |caller| == |old(caller)|
                && forall p | 0 <= p < |caller| :: caller[p] == WokenBy(old(caller)[p], b)
    {
      hide CallersOk;
      var empty := ListEmpty();
      if empty {
        return true;
      }
      if flight.value.write && landed {
        Landed(caller, asked, buf, queue, card, flight.value.payload);
        card := card[buf[queue[0]].blockno := flight.value.payload];
      }
      if !(dataDone || readRdy) {
        return false;
      }
      assert LinkedAt(next, prev, count, queue, -1);
      var b := next[count];
      var write := buf[b].dirty;
      if write && !(dataDone && !readRdy && !others) {
        SdStart(b);
        return true;
      }
      Complete(b, if write then buf[b].data else words);
      return true;
    }

    /** The end of the handler: the request is done, and the next one starts. */
    method Complete(b: nat, data: Block)
      requires Valid() && queue != [] && b == queue[0] && data == card[buf[b].blockno] && (buf[b].dirty ==> data == buf[b].data)
      modifies this`next, this`prev, this`queue, this`flight, this`completed, this`caller, this`buf
      ensures Valid() && queue == old(queue)[1..] && completed == old(completed) + [b]
      ensures buf == old(buf)[b := Buf(old(buf)[b].blockno, true, false, data)]
      ensures |caller| == |old(caller)| && forall p | 0 <= p < |caller| :: caller[p] == WokenBy(old(caller)[p], b)
    {
      hide CallersOk;
      buf := buf[b := Buf(buf[b].blockno, true, false, data)];
      Wakeup(b);
      ListDelFirst();
      Finished(old(caller), asked, old(buf), old(queue), card, caller, buf);
      completed := completed + [b];
      flight := None;
      var empty := next[count] == count;
      assert LinkedAt(next, prev, count, queue, -1);
      if !empty {
        SdStart(next[count]);
      }
    }

    /** A woken caller tests its buffer again and returns from sdrw: its buffer is valid and clean, and holds
        what is on the card, which for a request with a dirty buffer is what that buffer held, and for any
        other is what was on the card when the request came. */
    method Return(p: nat) returns (done: bool, ghost b: nat)
      requires Valid() && p < |caller| && caller[p].Awake?
      modifies this`caller
      ensures Valid() && done && b == old(caller)[p].b && caller == old(caller)[p := Out] && p < |asked|
      ensures b < count && b !in queue && buf[b].valid && !buf[b].dirty && card[buf[b].blockno] == buf[b].data
      ensures buf[b].blockno == asked[p].x.blockno && buf[b].data == if asked[p].x.dirty then asked[p].x.data else asked[p].found
    {
      b := caller[p].b;
      assert CallerOk(caller[p], asked[p], buf, queue, card);
      Left(caller, asked, buf, queue, card, p);
      done := buf[caller[p].b].valid && !buf[caller[p].b].dirty;
      if done {
        caller := caller[p := Out];
      }
    }

    /** The environment: between calls the rest of the kernel may change, in any way, a buffer that nobody
        is in sdrw with.  Like the driver's own steps this keeps Valid. */
    method Use(b: nat, x: Buf)
      requires Valid() && b < count && x.blockno < |card| && forall p | 0 <= p < |caller| && caller[p] != Out :: caller[p].b != b
      modifies this`buf
      ensures Valid() && buf == old(buf)[b := x]
    {
      Changed(caller, asked, buf, queue, card, b, x);
      buf := buf[b := x];
    }

    lemma Poisoned(n: seq<nat>, q: seq<nat>, n': seq<nat>, q': seq<nat>, head: nat, items: seq<nat>, e: nat)
      requires Linked(n, q, head, items) && e < |n| && e != head && e !in items
      requires n' == n[e := POISON] && q' == q[e := POISON]
      ensures Linked(n', q', head, items)
    {
      forall i | -1 <= i < |items| ensures LinkedAt(n', q', head, items, i) {
        assert LinkedAt(n, q, head, items, i);
      }
    }
  }
}
