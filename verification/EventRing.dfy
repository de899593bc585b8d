/**
 The emitter's ring buffer (internal/events/emitter.go): a bounded queue that drops its oldest event.

 `Emitter` is the ring with its head, tail and length; `Pushed` and `Batch` are the queue it stands for;
 `Run` follows labelled events through any sequence of emits and drains.
 */
module EventRing {

  /** The queue after an emit. */
  function Pushed<T>(q: seq<T>, e: T, size: nat): seq<T> {
    if |q| == size && size > 0 then q[1..] + [e] else q + [e]
  }

  function BatchLen(len: nat, batch: nat): (n: nat)
    ensures n <= len
    ensures n == len || n == batch
  {
    if len > batch then batch else len
  }

  function Flatten<T>(batches: seq<seq<T>>): seq<T> {
    if |batches| == 0 then [] else Flatten(batches[..|batches| - 1]) + batches[|batches| - 1]
  }

  lemma {:induction false} MulOrder(a: int, b: int, c: int)
    requires a <= b && c >= 0
    ensures a * c <= b * c
  {
    assert (b - a) * c >= 0;
  }

  /** `x` modulo `size` for an `x` at most one lap past the end (WrapIndex). */
  function Wrap(x: nat, size: nat): (r: nat)
    requires x < 2 * size
    ensures r < size
  {
    if x < size then x else x - size
  }

  lemma {:induction false} WrapIndex(x: nat, size: nat)
    requires x < 2 * size
    ensures x % size == Wrap(x, size)
  {
    var q, r := x / size, x % size;
    assert x == q * size + r && 0 <= r < size;
    if q >= 2 {
      MulOrder(2, q, size);
    }
  }

  /** The `n` cells from `head` on, wrapping round. */
  function Window<T>(cells: seq<T>, head: nat, n: nat): (q: seq<T>)
    requires head < |cells| && n <= |cells|
    ensures |q| == n
  {
    if head + n <= |cells| then cells[head..head + n] else cells[head..] + cells[..head + n - |cells|]
  }

  lemma {:induction false} WindowAt<T>(cells: seq<T>, head: nat, n: nat, i: nat)
    requires head < |cells| && i < n <= |cells|
    ensures Window(cells, head, n)[i] == cells[Wrap(head + i, |cells|)]
  {
  }

  lemma {:induction false} WindowDrop<T>(cells: seq<T>, head: nat, n: nat, k: nat)
    requires head < |cells| && k <= n <= |cells|
    ensures Window(cells, head, n)[k..] == Window(cells, Wrap(head + k, |cells|), n - k)
    ensures Wrap(head + n, |cells|) == Wrap(Wrap(head + k, |cells|) + (n - k), |cells|)
  {
    hide Window;
    var a, b := Window(cells, head, n)[k..], Window(cells, Wrap(head + k, |cells|), n - k);
    forall i | 0 <= i < n - k
      ensures a[i] == b[i]
    {
      WindowAt(cells, head, n, k + i);
      WindowAt(cells, Wrap(head + k, |cells|), n - k, i);
    }
  }

  /** Writing the cell just past a window that is not full appends to it. */
  lemma {:induction false} WindowAppend<T>(cells: seq<T>, head: nat, n: nat, e: T)
    requires head < |cells| && n < |cells|
    ensures var tail := Wrap(head + n, |cells|);
            && Window(cells[tail := e], head, n + 1) == Window(cells, head, n) + [e]
            && Wrap(head + n + 1, |cells|) == Wrap(tail + 1, |cells|)
  {
    hide Window;
    var tail := Wrap(head + n, |cells|);
    var a, b := Window(cells[tail := e], head, n + 1), Window(cells, head, n) + [e];
    forall i | 0 <= i < n + 1
      ensures a[i] == b[i]
    {
      WindowAt(cells[tail := e], head, n + 1, i);
      if i < n {
        WindowAt(cells, head, n, i);
      }
    }
  }

  /** Writing at the tail and, if the ring is full, advancing the head is a push on the window. */
  lemma {:induction false} WindowEmit<T>(cells: seq<T>, head: nat, n: nat, e: T)
    requires head < |cells| && n <= |cells|
    ensures var size := |cells|;
            var tail := Wrap(head + n, size);
            var head' := if n == size then Wrap(head + 1, size) else head;
            var n' := if n == size then n else n + 1;
            && Window(cells[tail := e], head', n') == Pushed(Window(cells, head, n), e, size)
            && Wrap(tail + 1, size) == Wrap(head' + n', size)
  {
    hide Window;
    if n == |cells| {
      WindowDrop(cells, head, n, 1);
      WindowAppend(cells, Wrap(head + 1, |cells|), n - 1, e);
    } else {
      WindowAppend(cells, head, n, e);
    }
  }

  class Emitter<T(0)> {
    const batchSize: nat
    const bufferSize: nat
    const ring: array<T>
    var head: nat
    var tail: nat
    var len: nat

    ghost predicate Valid()
      reads this
    {
      && batchSize >= 1 && bufferSize >= 1 && ring.Length == bufferSize
      && head < bufferSize && tail < bufferSize && len <= bufferSize
      && tail == Wrap(head + len, bufferSize)
    }

    ghost function Contents(): (q: seq<T>)
      reads this, ring
      requires Valid()
      ensures |q| == len
    {
      Window(ring[..], head, len)
    }

    constructor (batch: int, buffer: int)
      ensures Valid() && fresh(ring) && Contents() == []
      ensures batchSize == (if batch <= 0 then 100 else batch) && bufferSize == (if buffer <= 0 then 10000 else buffer)
    {
      batchSize := if batch <= 0 then 100 else batch;
      var size := if buffer <= 0 then 10000 else buffer;
      bufferSize := size;
      ring := new T[size];
      head, tail, len := 0, 0, 0;
    }

    /** The locked part of Emit; `wake` says whether the flusher is to be signalled afterwards. */
    method Emit(e: T) returns (wake: bool, dropped: bool)
      requires Valid()
      modifies this, ring
      ensures Valid()
      ensures Contents() == Pushed(old(Contents()), e, bufferSize)
      ensures dropped == (|old(Contents())| == bufferSize)
      ensures wake == (|Contents()| >= batchSize)
    {
      hide Window, Wrap, Pushed;
      ghost var cells := ring[..];
      WindowEmit(cells, head, len, e);
      WrapIndex(tail + 1, bufferSize);
      WrapIndex(head + 1, bufferSize);
      ring[tail] := e;
      assert ring[..] == cells[tail := e];
      tail := (tail + 1) % bufferSize;
      dropped := len == bufferSize;
      if dropped {
        head := (head + 1) % bufferSize;
      } else {
        len := len + 1;
      }
      wake := len >= batchSize;
    }

    method Copy(n: nat) returns (batch: seq<T>)
      requires Valid() && n <= len
      ensures batch == Contents()[..n]
    {
      hide Window, Wrap;
      batch := [];
      for i := 0 to n
        invariant batch == Contents()[..i]
      {
        WindowAt(ring[..], head, len, i);
        WrapIndex(head + i, bufferSize);
        batch := batch + [ring[(head + i) % bufferSize]];
      }
    }

    /** Takes the oldest events, at most a batch of them, in order. */
    method Drain() returns (batch: seq<T>)
      requires Valid()
      modifies this
      ensures Valid()
      ensures var n := BatchLen(|old(Contents())|, batchSize);
              batch == old(Contents())[..n] && Contents() == old(Contents())[n..]
    {
      hide Window, Wrap;
      if len == 0 {
        return [];
      }
      var n := len;
      if n > batchSize {
        n := batchSize;
      }
      batch := Copy(n);
      WindowDrop(ring[..], head, len, n);
      WrapIndex(head + n, bufferSize);
      head := (head + n) % bufferSize;
      len := len - n;
    }

    /** Sends batches until the ring is seen empty: everything buffered, in order, in full batches but the last. */
    method Flush() returns (sent: seq<seq<T>>)
      requires Valid()
      modifies this
      ensures Valid() && Contents() == []
      ensures Flatten(sent) == old(Contents())
      ensures FullButLast(sent, batchSize)
    {
      hide Window, Flatten, Wrap, FullButLast, LastFull;
      sent := [];
      FullNone<T>(batchSize);
      while true
        invariant Valid()
        invariant Flatten(sent) + Contents() == old(Contents())
        invariant FullButLast(sent, batchSize) && (len > 0 ==> LastFull(sent, batchSize))
        decreases len
      {
        ghost var rest := Contents();
        var batch := Drain();
        if |batch| == 0 {
          assert rest == [];
          return;
        }
        FlattenAppend(sent, batch, Contents(), rest);
        FullAppend(sent, batch, batchSize);
        sent := sent + [batch];
      }
    }
  }

  /** Batches are not empty and at most `batch` long, and all but the last are full. */
  ghost predicate FullButLast<T>(sent: seq<seq<T>>, batch: nat) {
    && (forall i :: 0 <= i < |sent| ==> 0 < |sent[i]| <= batch)
    && (forall i :: 0 <= i < |sent| - 1 ==> |sent[i]| == batch)
  }

  ghost predicate LastFull<T>(sent: seq<seq<T>>, batch: nat) {
    |sent| > 0 ==> |sent[|sent| - 1]| == batch
  }

  lemma {:induction false} FullNone<T>(batch: nat)
    ensures FullButLast<T>([], batch) && LastFull<T>([], batch) && Flatten<T>([]) == []
  {
  }

  lemma {:induction false} FullAppend<T>(sent: seq<seq<T>>, b: seq<T>, batch: nat)
    requires FullButLast(sent, batch) && LastFull(sent, batch) && 0 < |b| <= batch
    ensures FullButLast(sent + [b], batch) && (|b| == batch ==> LastFull(sent + [b], batch))
  {
  }

  lemma {:induction false} FlattenAppend<T>(sent: seq<seq<T>>, b: seq<T>, left: seq<T>, rest: seq<T>)
    requires b + left == rest
    ensures Flatten(sent + [b]) + left == Flatten(sent) + rest
  {
    assert (sent + [b])[..|sent|] == sent;
    assert Flatten(sent) + b + left == Flatten(sent) + (b + left);
  }

  // ---------------------------------------------------------------- whole runs

  datatype Op<T> = Emit(e: T) | Drain

  /** An event with its position in the order of emission. */
  datatype Item<T> = Item(id: nat, e: T)

  datatype Log<T> = Log(queue: seq<Item<T>>, emitted: seq<T>, drained: seq<Item<T>>, dropped: seq<Item<T>>)

  function Step<T>(s: Log<T>, op: Op<T>, size: nat, batch: nat): Log<T> {
    match op
    case Emit(e) =>
      Log(Pushed(s.queue, Item(|s.emitted|, e), size), s.emitted + [e], s.drained,
          if |s.queue| == size && size > 0 then s.dropped + [s.queue[0]] else s.dropped)
    case Drain =>
      var n := BatchLen(|s.queue|, batch);
      s.(queue := s.queue[n..], drained := s.drained + s.queue[..n])
  }

  function Run<T>(ops: seq<Op<T>>, size: nat, batch: nat): Log<T> {
    if |ops| == 0 then Log([], [], [], [])
    else Step(Run(ops[..|ops| - 1], size, batch), ops[|ops| - 1], size, batch)
  }

  /** Ids rise strictly, so no event occurs twice, and every item carries the event emitted with that id. */
  ghost predicate InOrder<T>(xs: seq<Item<T>>, emitted: seq<T>) {
    && (forall i :: 0 <= i < |xs| ==> xs[i].id < |emitted| && xs[i].e == emitted[xs[i].id])
    && (forall i, j :: 0 <= i < j < |xs| ==> xs[i].id < xs[j].id)
  }

  /** The queue is the last |queue| emitted events, in order. */
  ghost predicate IsSuffix<T>(queue: seq<Item<T>>, emitted: seq<T>) {
    && |queue| <= |emitted|
    && forall i :: 0 <= i < |queue| ==> queue[i] == Item(|emitted| - |queue| + i, emitted[|emitted| - |queue| + i])
  }

  ghost predicate Has<T>(xs: seq<Item<T>>, id: nat) {
    exists i :: 0 <= i < |xs| && xs[i].id == id
  }

  /** Every event that left the queue was either drained or dropped, and not both. */
  ghost predicate Accounted<T>(s: Log<T>) {
    && |s.queue| <= |s.emitted|
    && (forall id: nat :: Has(s.drained, id) || Has(s.dropped, id) <==> id < |s.emitted| - |s.queue|)
    && (forall id: nat :: !(Has(s.drained, id) && Has(s.dropped, id)))
  }

  ghost predicate Ledger<T>(s: Log<T>, size: nat) {
    && |s.queue| <= size
    && IsSuffix(s.queue, s.emitted)
    && InOrder(s.drained, s.emitted) && InOrder(s.dropped, s.emitted)
    && Accounted(s)
    && |s.emitted| == |s.drained| + |s.dropped| + |s.queue|
  }

  /** Moving the `n` oldest queued items to the end of an ordered log keeps it ordered. */
  lemma {:induction false} TakeOldest<T>(xs: seq<Item<T>>, queue: seq<Item<T>>, emitted: seq<T>, n: nat)
    requires InOrder(xs, emitted) && IsSuffix(queue, emitted) && n <= |queue|
    requires forall i :: 0 <= i < |xs| ==> xs[i].id < |emitted| - |queue|
    ensures InOrder(xs + queue[..n], emitted)
    ensures forall id: nat :: Has(xs + queue[..n], id)
                              <==> Has(xs, id) || |emitted| - |queue| <= id < |emitted| - |queue| + n
  {
    var ys := xs + queue[..n];
    forall id: nat
      ensures Has(ys, id) <==> Has(xs, id) || |emitted| - |queue| <= id < |emitted| - |queue| + n
    {
      if Has(xs, id) {
        var i :| 0 <= i < |xs| && xs[i].id == id;
        assert ys[i].id == id;
      }
      if |emitted| - |queue| <= id < |emitted| - |queue| + n {
        assert ys[|xs| + (id - (|emitted| - |queue|))].id == id;
      }
      if Has(ys, id) {
        var i :| 0 <= i < |ys| && ys[i].id == id;
        if i < |xs| { assert xs[i].id == id; }
      }
    }
  }

  lemma {:induction false} GoneIsOld<T>(s: Log<T>, xs: seq<Item<T>>)
    requires Accounted(s) && (xs == s.drained || xs == s.dropped)
    ensures forall i :: 0 <= i < |xs| ==> xs[i].id < |s.emitted| - |s.queue|
  {
    forall i | 0 <= i < |xs|
      ensures xs[i].id < |s.emitted| - |s.queue|
    {
      assert Has(xs, xs[i].id);
    }
  }

  lemma {:induction false} EmitKeepsLedger<T>(s: Log<T>, e: T, size: nat, batch: nat)
    requires size >= 1 && Ledger(s, size)
    ensures Ledger(Step(s, Emit(e), size, batch), size)
  {
    if |s.queue| == size {
      GoneIsOld(s, s.dropped);
      TakeOldest(s.dropped, s.queue, s.emitted, 1);
      assert s.queue[..1] == [s.queue[0]];
    }
  }

  lemma {:induction false} DrainKeepsLedger<T>(s: Log<T>, size: nat, batch: nat)
    requires Ledger(s, size)
    ensures Ledger(Step(s, Drain, size, batch), size)
  {
    GoneIsOld(s, s.drained);
    TakeOldest(s.drained, s.queue, s.emitted, BatchLen(|s.queue|, batch));
  }

  /**
   In every run: the buffer holds the last emitted events in order and never more than its size; drained and
   dropped events each come out in order of emission and at most once; and every event emitted has been
   drained, dropped or is still buffered, exactly one of the three.
   */
  lemma {:induction false} RunKeepsLedger<T>(ops: seq<Op<T>>, size: nat, batch: nat)
    requires size >= 1
    ensures Ledger(Run(ops, size, batch), size)
  {
    hide Ledger, Step;
    var n := |ops|;
    if n == 0 {
      EmptyLedger<T>(size);
    } else {
      RunKeepsLedger(ops[..n - 1], size, batch);
      var s := Run(ops[..n - 1], size, batch);
      match ops[n - 1]
      case Emit(e) => EmitKeepsLedger(s, e, size, batch);
      case Drain => DrainKeepsLedger(s, size, batch);
    }
  }

  lemma {:induction false} EmptyLedger<T>(size: nat)
    ensures Ledger<T>(Log([], [], [], []), size)
  {
  }
}
