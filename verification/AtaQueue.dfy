/**
 The ATA driver's asynchronous request queue (kernel/driver/ata/ata.c): a linked queue of
 operations, at most one active, advanced by interrupts whose status and data are arbitrary.
 A submission and an interrupt each run to the end; a completion callback may submit requests.
 */
module AtaQueue {

  /** A 16-bit word of the data port. */
  newtype Word = x: int | 0 <= x < 0x1_0000

  const SECTOR := 256           // words per sector
  const STATUS_DRQ: bv8 := 0x08
  const STATUS_ERR: bv8 := 0x01

  datatype Kind = Read | Write
  datatype Status = Pending | InProgress | Completed | Failed
  datatype Result = Ok | NotInitialized | InvalidParam | Unsupported | IoError

  class Operation {
    const kind: Kind
    const sectors: nat          // uint16_t, at least 1
    const buffer: array<Word>
    var status: Status
    var sectorsDone: nat
    var next: Operation?
    /** The words moved through the data port for this operation, in order. */
    ghost var moved: seq<Word>

    constructor (kind: Kind, sectors: nat, buffer: array<Word>)
      ensures this.kind == kind && this.sectors == sectors && this.buffer == buffer
      ensures status == Pending && sectorsDone == 0 && next == null && moved == []
    {
      this.kind, this.sectors, this.buffer := kind, sectors, buffer;
      status, sectorsDone, next, moved := Pending, 0, null, [];
    }

    /** Waiting in the queue, nothing transferred. */
    ghost predicate Waiting()
      reads this
    {
      status == Pending && sectorsDone == 0 && moved == [] && Sized()
    }

    ghost predicate Sized()
    {
      0 < sectors < 0x1_0000 && buffer.Length >= SECTOR * sectors
    }

    /**
     In progress, with at least one sector to go.  A read has filled the front of its buffer with
     the words received; a write has sent the front of its buffer, one sector ahead.
     */
    ghost predicate Running()
      reads this, buffer
    {
      && status == InProgress && Sized() && sectorsDone < sectors
      && moved == buffer[..SECTOR * (if kind == Read then sectorsDone else sectorsDone + 1)]
    }
  }

  /** Of a buffer a read has changed nothing but sector `n`, and a write nothing at all. */
  ghost predicate OneSector(kind: Kind, was: seq<Word>, now: seq<Word>, n: nat)
  {
    && |now| == |was|
    && forall x :: 0 <= x < |was| && (kind == Write || x < SECTOR * n || x >= SECTOR * (n + 1)) ==> now[x] == was[x]
  }

  /** A finished operation and the result its callback was given. */
  datatype Done = Done(op: Operation, result: Result)

  ghost function Ops(ds: seq<Done>): seq<Operation>
  {
    if ds == [] then [] else Ops(ds[..|ds| - 1]) + [ds[|ds| - 1].op]
  }

  ghost function OneOrNone(op: Operation?): seq<Operation>
  {
    if op == null then [] else [op]
  }

  class AsyncQueue {
    var head: Operation?
    var tail: Operation?
    var active: Operation?
    /** The linked operations, everything ever accepted, and everything completed, each in order. */
    ghost var pending: seq<Operation>
    ghost var submitted: seq<Operation>
    ghost var completed: seq<Done>

    /** The operations not yet freed, and the buffer of the active one. */
    ghost function Live(): set<object>
      reads this
    {
      (set op: Operation | op in pending :: op as object) + (if active == null then {} else {active, active.buffer})
    }

    /** Head, tail and links spell out `pending`. */
    ghost predicate Linked()
      reads this, pending
    {
      && head == (if pending == [] then null else pending[0])
      && tail == (if pending == [] then null else pending[|pending| - 1])
      && (pending != [] ==> pending[|pending| - 1].next == null)
      && (forall i {:trigger pending[i].next} :: 0 <= i < |pending| - 1 ==> pending[i].next == pending[i + 1])
    }

    /** Accepted operations are completed, active or queued, in the order they were submitted, each once. */
    ghost predicate Ordered()
      reads this
    {
      && submitted == Ops(completed) + OneOrNone(active) + pending
      && (forall i, j :: 0 <= i < j < |submitted| ==> submitted[i] != submitted[j])
    }

    /** What holds at every point, the inside of a completion callback included. */
    ghost predicate Core()
      reads this, pending
    {
      && Ordered()
      && Linked()
      && (forall i :: 0 <= i < |pending| ==> pending[i].Waiting())
      && (active != null ==> active !in pending)
      && (active == null ==> pending == [])
    }

    ghost predicate Valid()
      reads this, pending, Live()
    {
      Core() && (active != null ==> active.Running())
    }

    constructor ()
      ensures Valid() && submitted == [] && completed == []
    {
      head, tail, active := null, null, null;
      pending, submitted, completed := [], [], [];
    }

    lemma PendingDistinct()
      requires Ordered()
      ensures forall i, j :: 0 <= i < j < |pending| ==> pending[i] != pending[j]
      ensures active != null ==> active !in pending
    {
      var n := |submitted| - |pending|;
      forall i | 0 <= i < |pending| ensures pending[i] == submitted[n + i] {}
      if active != null { assert active == submitted[n - 1]; }
    }

    /** `ata_start_next_async_op`. */
    method StartNext()
      requires Ordered() && Linked() && (forall i :: 0 <= i < |pending| ==> pending[i].Waiting())
      requires active != null ==> active.Running() && active !in pending
      modifies this`head, this`tail, this`active, this`pending, pending
      ensures Valid() && submitted == old(submitted) && completed == old(completed)
      ensures if old(active) != null || old(pending) == [] then active == old(active) && pending == old(pending)
              else active == old(pending)[0] && pending == old(pending)[1..]
    {
      hide Ops;
      PendingDistinct();
      if active != null { return; }
      var op := head;
      if op == null { return; }
      head := op.next;
      if head == null { tail := null; }
      active := op;
      op.status := InProgress;
      ghost var rest := pending[1..];
      assert pending == [op] + rest;
      if op.kind == Write {
        op.moved := op.moved + op.buffer[..SECTOR];
      }
      pending := rest;
    }

    /** `ata_read_async` and `ata_write_async`, once the operation has been allocated. */
    method Enqueue(op: Operation)
      requires Core() && op.Waiting() && op.next == null && op !in submitted
      modifies this, pending, op
      ensures Core() && submitted == old(submitted) + [op] && completed == old(completed)
      ensures old(active) == null ==> active == op && op.Running() && pending == []
      ensures old(active) != null ==> active == old(active) && pending == old(pending) + [op]
    {
      hide Ops;
      submitted := submitted + [op];
      pending := pending + [op];
      if tail == null {
        head := op;
        tail := op;
        if active == null { StartNext(); }
      } else {
        tail.next := op;
        tail := op;
      }
    }

    /** The operations a completion callback submits, one after the other, behind the active one. */
    method EnqueueAll(ops: seq<Operation>)
      requires Core() && active != null && Fresh(ops)
      modifies this, pending, ops
      ensures Core() && active == old(active) && completed == old(completed)
      ensures submitted == old(submitted) + ops && pending == old(pending) + ops
    {
      hide Ops;
      if ops != [] {
        Enqueue(ops[0]);
        assert Fresh(ops[1..]);
        EnqueueAll(ops[1..]);
        assert ops == [ops[0]] + ops[1..];
      }
    }

    /** New operations, none of them submitted before. */
    ghost predicate Fresh(ops: seq<Operation>)
      reads this, ops
    {
      && (forall i :: 0 <= i < |ops| ==> ops[i].Waiting() && ops[i].next == null && ops[i] !in submitted)
      && (forall i, j :: 0 <= i < j < |ops| ==> ops[i] != ops[j])
    }

    /** The parameter checks and the allocation of a submission; `memory` is `kmalloc`'s outcome. */
    method Submit(kind: Kind, initialized: bool, asyncMode: bool, device: int, buffer: array?<Word>, sectors: nat,
                  memory: bool)
      returns (r: Result)
      requires Valid() && sectors < 0x1_0000
      requires buffer != null ==> buffer.Length >= SECTOR * sectors
      modifies this, pending
      ensures Valid() && completed == old(completed)
      ensures r == if !initialized then NotInitialized
                   else if device < 0 || device > 3 || buffer == null || sectors == 0 then InvalidParam
                   else if !asyncMode then Unsupported
                   else if !memory then IoError else Ok
      ensures r != Ok ==> submitted == old(submitted) && pending == old(pending) && active == old(active)
      ensures r == Ok ==> && |submitted| == |old(submitted)| + 1 && submitted[..|old(submitted)|] == old(submitted)
                          && fresh(submitted[|old(submitted)|]) && submitted[|old(submitted)|].kind == kind
                          && submitted[|old(submitted)|].sectors == sectors
                          && submitted[|old(submitted)|].buffer == buffer
    {
      if !initialized { return NotInitialized; }
      if device < 0 || device > 3 || buffer == null || sectors == 0 { return InvalidParam; }
      if !asyncMode { return Unsupported; }
      if !memory { return IoError; }
      var op := new Operation(kind, sectors, buffer);
      Enqueue(op);
      return Ok;
    }

    /**
     `ata_complete_async_op` on the active operation, which is then freed; its callback submits
     `requests` while the operation is still the active one.
     */
    method Complete(result: Result, requests: seq<Operation>)
      requires Core() && active != null && Fresh(requests)
      modifies this, pending, requests, active`status
      ensures active == null && completed == old(completed) + [Done(old(active), result)]
      ensures Ordered() && Linked() && (forall i :: 0 <= i < |pending| ==> pending[i].Waiting())
      ensures submitted == old(submitted) + requests && pending == old(pending) + requests
      ensures old(active).status == if result == Ok then Completed else Failed
    {
      hide Ops;
      ActiveSubmitted();
      var op := active;
      assert op !in requests;
      op.status := if result == Ok then Completed else Failed;
      EnqueueAll(requests);
      Retire(result);
    }

    /** The active operation is freed. */
    method Retire(result: Result)
      requires Ordered() && active != null
      modifies this`active, this`completed
      ensures active == null && completed == old(completed) + [Done(old(active), result)] && Ordered()
    {
      hide Ops;
      OpsAppend(completed, Done(active, result));
      completed := completed + [Done(active, result)];
      active := null;
      assert Ops(completed) + OneOrNone(active) + pending == old(Ops(completed) + OneOrNone(active) + pending);
    }

    lemma ActiveSubmitted()
      requires Ordered() && active != null
      ensures active in submitted && forall i :: 0 <= i < |pending| ==> pending[i] in submitted
    {
      var n := |submitted| - |pending|;
      assert submitted[n - 1] == active;
      forall i | 0 <= i < |pending| ensures pending[i] in submitted { assert submitted[n + i] == pending[i]; }
    }

    /** The read half of the interrupt handler: one sector from the data port into the buffer. */
    method ReceiveSector(data: seq<Word>)
      requires active != null && active.Running() && active.kind == Read && |data| == SECTOR
      modifies active, active.buffer
      ensures active.sectorsDone == old(active.sectorsDone) + 1 && active.status == old(active.status)
      ensures active.next == old(active.next) && active.moved == old(active.moved) + data
      ensures active.moved == active.buffer[..SECTOR * active.sectorsDone]
      ensures forall x :: 0 <= x < active.buffer.Length
                && !(SECTOR * old(active.sectorsDone) <= x < SECTOR * active.sectorsDone)
                ==> active.buffer[x] == old(active.buffer[x])
    {
      var op := active;
      var base := SECTOR * op.sectorsDone;
      assert SECTOR * (op.sectorsDone + 1) <= SECTOR * op.sectors;
      for i := 0 to SECTOR
        invariant op.buffer[base..base + i] == data[..i]
        invariant forall x :: 0 <= x < op.buffer.Length && !(base <= x < base + i) ==> op.buffer[x] == old(op.buffer[x])
        invariant unchanged(op)
        modifies op.buffer
      {
        op.buffer[base + i] := data[i];
      }
      assert op.buffer[..base] == op.moved;
      assert op.buffer[..base + SECTOR] == op.buffer[..base] + op.buffer[base..base + SECTOR];
      op.sectorsDone := op.sectorsDone + 1;
      op.moved := op.moved + data;
    }

    /** The write half: the sector on its way is done; send the next one unless it was the last. */
    method SendSector()
      requires active != null && active.Running() && active.kind == Write
      modifies active
      ensures active.sectorsDone == old(active.sectorsDone) + 1 && active.status == old(active.status)
      ensures active.next == old(active.next)
      ensures active.sectorsDone < active.sectors ==> active.moved == active.buffer[..SECTOR * (active.sectorsDone + 1)]
      ensures active.sectorsDone == active.sectors ==>
                active.moved == old(active.moved) == active.buffer[..SECTOR * active.sectors]
    {
      var op := active;
      op.sectorsDone := op.sectorsDone + 1;
      if op.sectorsDone < op.sectors {
        var base := SECTOR * op.sectorsDone;
        assert SECTOR * (op.sectorsDone + 1) <= SECTOR * op.sectors;
        op.moved := op.moved + op.buffer[base..base + SECTOR];
      }
    }

    /** One sector of the active operation, either way. */
    method MoveSector(data: seq<Word>)
      requires active != null && active.Running() && |data| == SECTOR
      modifies active, active.buffer
      ensures active.sectorsDone == old(active.sectorsDone) + 1 && active.next == old(active.next)
      ensures active.kind == Read ==> active.moved == old(active.moved) + data
      ensures OneSector(active.kind, old(active.buffer[..]), active.buffer[..], old(active.sectorsDone))
      ensures active.sectorsDone < active.sectors ==> active.Running()
      ensures active.sectorsDone == active.sectors ==> active.moved == active.buffer[..SECTOR * active.sectors]
    {
      if active.kind == Read {
        ReceiveSector(data);
      } else {
        SendSector();
      }
    }

    /** The end of the interrupt handler after a sector has moved: completion, if it was the last, and a new start. */
    method Finish(requests: seq<Operation>)
      requires Core() && active != null && Fresh(requests)
      requires active.sectorsDone < active.sectors ==> active.Running()
      modifies this, pending, requests, active`status
      ensures Valid()
      ensures var op := old(active);
              if op.sectorsDone >= op.sectors
              then completed == old(completed) + [Done(op, Ok)] && submitted == old(submitted) + requests
                   && op.status == Completed
              else completed == old(completed) && submitted == old(submitted) && active == op
    {
      hide Ops;
      var op := active;
      if op.sectorsDone >= op.sectors {
        Complete(Ok, requests);
        StartNext();
      }
    }

    /** The error branch of the interrupt handler. */
    method Fail(requests: seq<Operation>)
      requires Valid() && active != null && Fresh(requests)
      modifies this, pending, active`status, requests
      ensures Valid() && submitted == old(submitted) + requests
      ensures var op := old(active);
              && completed == old(completed) + [Done(op, IoError)] && op.status == Failed
              && op.sectorsDone == old(op.sectorsDone) && op.moved == old(op.moved)
    {
      hide Ops;
      PendingDistinct();
      ActiveSubmitted();
      Complete(IoError, requests);
      assert old(active) !in pending;
      StartNext();
    }

    /** The data branch of the interrupt handler. */
    method Transfer(data: seq<Word>, requests: seq<Operation>)
      requires Valid() && active != null && |data| == SECTOR && Fresh(requests)
      modifies this, pending, active, active.buffer, requests
      ensures Valid() && submitted == old(submitted) + (if completed == old(completed) then [] else requests)
      ensures var op := old(active);
              && op.sectorsDone == old(op.sectorsDone) + 1
              && (op.kind == Read ==> op.moved == old(op.moved) + data)
              && OneSector(op.kind, old(op.buffer[..]), op.buffer[..], old(op.sectorsDone))
              && op.status == (if op.sectorsDone == op.sectors then Completed else InProgress)
              && completed == old(completed) + (if op.sectorsDone == op.sectors then [Done(op, Ok)] else [])
              && (op.sectorsDone == op.sectors ==> op.moved == op.buffer[..SECTOR * op.sectors])
              && (op.sectorsDone < op.sectors ==> active == op)
    {
      hide Ops, OneSector;
      PendingDistinct();
      ActiveSubmitted();
      MoveSector(data);
      Finish(requests);
    }

    /**
     `ata_irq_handler`; `data` is what the data port would deliver and `requests` what the callback of
     the active operation would submit.  At most the active operation completes.  With success it
     does so only after its last sector: a read then has its whole buffer filled with the words
     received, in order, a write has sent its whole buffer.
     */
    method Irq(status: bv8, data: seq<Word>, requests: seq<Operation>)
      requires Valid() && |data| == SECTOR && Fresh(requests)
      modifies this, pending, Live(), requests
      ensures Valid()
      ensures submitted == old(submitted) + if completed == old(completed) then [] else requests
      ensures old(active) == null || status & (STATUS_DRQ | STATUS_ERR) == 0 ==>
                completed == old(completed) && active == old(active) && pending == old(pending)
      ensures old(active) != null && status & STATUS_ERR != 0 ==>
                var op := old(active);
                && completed == old(completed) + [Done(op, IoError)] && op.status == Failed
                && op.sectorsDone == old(op.sectorsDone) && op.moved == old(op.moved)
                && op.buffer[..] == old(op.buffer[..])
      ensures old(active) != null && status & STATUS_ERR == 0 && status & STATUS_DRQ != 0 ==>
                var op := old(active);
                && op.sectorsDone == old(op.sectorsDone) + 1
                && (op.kind == Read ==> op.moved == old(op.moved) + data)
                && OneSector(op.kind, old(op.buffer[..]), op.buffer[..], old(op.sectorsDone))
                && op.status == (if op.sectorsDone == op.sectors then Completed else InProgress)
                && completed == old(completed) + (if op.sectorsDone == op.sectors then [Done(op, Ok)] else [])
                && (op.sectorsDone == op.sectors ==> op.moved == op.buffer[..SECTOR * op.sectors])
                && (op.sectorsDone < op.sectors ==> active == op)
    {
      hide Ops, OneSector;
      if status & (STATUS_DRQ | STATUS_ERR) == 0 { return; }
      if status & STATUS_ERR != 0 {
        if active == null {
          StartNext();
        } else {
          Fail(requests);
        }
        return;
      }
      if active == null { return; }
      Transfer(data, requests);
    }
  }

  // ---- what the order means --------------------------------------------------------

  lemma OpsAppend(ds: seq<Done>, d: Done)
    ensures Ops(ds + [d]) == Ops(ds) + [d.op]
  {
    assert (ds + [d])[..|ds + [d]| - 1] == ds;
  }

  lemma {:induction false} OpsAt(ds: seq<Done>, i: nat)
    requires i < |ds|
    ensures |Ops(ds)| == |ds| && Ops(ds)[i] == ds[i].op
  {
    if i < |ds| - 1 {
      OpsAt(ds[..|ds| - 1], i);
    } else if |ds| > 1 {
      OpsAt(ds[..|ds| - 1], 0);
    }
  }

  /** In every reachable state the `i`-th completion is the `i`-th submission, and nothing completes twice. */
  lemma CompletedInOrder(submitted: seq<Operation>, completed: seq<Done>, rest: seq<Operation>, i: nat, j: nat)
    requires submitted == Ops(completed) + rest
    requires forall a, b :: 0 <= a < b < |submitted| ==> submitted[a] != submitted[b]
    requires i < |completed| && j < |completed|
    ensures |completed| <= |submitted| && completed[i].op == submitted[i]
    ensures completed[i].op == completed[j].op ==> i == j
  {
    OpsAt(completed, i);
    OpsAt(completed, j);
    assert submitted[i] == completed[i].op && submitted[j] == completed[j].op;
  }
}
