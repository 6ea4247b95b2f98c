/** Interrupt set-up and teardown: every resource taken in stages is given back at every failure. */
module IrqSetup {
  import opened Driver

  const ENOMEM := 12
  const ENOSPC := 28
  const EINVAL := 22

  /** What the PCI and interrupt layers answer during one set-up. */
  datatype Platform = Platform(
    vectorCount: int,       // pci_msix_vec_count
    memory: bool,           // kzalloc succeeds
    granted: int,           // pci_alloc_irq_vectors
    irq: seq<int>,          // pci_irq_vector, by index
    request: seq<int>)      // request_irq, by index

  /** The answers that let set-up of `n` vectors go through. */
  predicate Willing(p: Platform, n: nat)
    requires n <= |p.irq| && n <= |p.request|
  {
    && p.vectorCount >= 16 && n <= p.vectorCount && p.memory && p.granted >= n
    && (forall i | 0 <= i < n :: p.irq[i] >= 0)
    && (forall i | 0 <= i < n :: p.request[i] == 0)
  }

  /** The first of `n` answers that is an error: not 0, or negative where a number is asked for. */
  predicate FirstBad(answers: seq<int>, n: nat, k: nat, numbers: bool)
    requires n <= |answers|
  {
    && k < n && (if numbers then answers[k] < 0 else answers[k] != 0)
    && forall i | 0 <= i < k :: if numbers then answers[i] >= 0 else answers[i] == 0
  }

  function Irqs(table: seq<MsixEntry>): set<int> { set i | 0 <= i < |table| :: table[i].vector }

  class Interrupts {
    const nClients: nat
    const nEvents: nat
    var present: bool               // IRQ_private is not NULL
    var table: seq<MsixEntry>
    var vectors: bool               // vectors allocated from the PCI layer
    var requested: set<int>         // IRQs with our handler attached

    constructor (clients: nat, events: nat)
      ensures nClients == clients && nEvents == events && Nothing()
    {
      nClients, nEvents := clients, events;
      present, table, vectors, requested := false, [], false, {};
    }

    predicate Nothing()
      reads this
    {
      !present && !vectors && requested == {}
    }

    predicate Everything()
      reads this
    {
      && present && vectors && |table| == nEvents
      && GoodTable(table) && requested == Irqs(table)
    }

    predicate Enough(p: Platform) { p.vectorCount >= 16 && p.vectorCount >= nEvents }

    /** free_irq complains about an IRQ that is not ours. */
    method FreeIrq(irq: int)
      requires irq in requested
      modifies this`requested
      ensures requested == old(requested) - {irq}
    {
      requested := requested - {irq};
    }

    /** Frees the first `n` IRQs of the table, each exactly once. */
    method FreeFirst(n: nat)
      requires n <= |table| && GoodTable(table) && requested == Irqs(table[..n])
      modifies this`requested
      ensures requested == {}
    {
      var i := 0;
      while i < n
        invariant 0 <= i <= n
        invariant requested == set j | i <= j < n :: table[j].vector
      {
        FreeIrq(table[i].vector);
        i := i + 1;
      }
    }

    /** famez_ISR_setup: all or nothing, and all exactly when the platform allows it. */
    method Setup(p: Platform) returns (ret: int)
      requires Nothing() && nEvents <= |p.irq| && nEvents <= |p.request|
      requires forall i, j | 0 <= i < j < nEvents :: p.irq[i] != p.irq[j]
      modifies this
      ensures ret == 0 <==> Willing(p, nEvents)
      ensures ret == 0 ==> Everything() && forall i | 0 <= i < nEvents :: table[i].vector == p.irq[i]
      ensures ret != 0 ==> Nothing()
      ensures p.vectorCount < 0 ==> ret == p.vectorCount
      ensures 0 <= p.vectorCount < 16 ==> ret == -22
      ensures 16 <= p.vectorCount < nEvents ==> ret == -28
      ensures Enough(p) && !p.memory ==> ret == -12
      ensures Enough(p) && p.memory && p.granted < 0 ==> ret == p.granted
      ensures Enough(p) && p.memory && 0 <= p.granted < nEvents ==> ret == -28
      ensures Enough(p) && p.memory && p.granted >= nEvents ==>
                && (forall k: nat | FirstBad(p.irq, nEvents, k, true) :: ret == p.irq[k])
                && ((forall i | 0 <= i < nEvents :: p.irq[i] >= 0) ==>
                      forall k: nat | FirstBad(p.request, nEvents, k, false) :: ret == p.request[k])
    {
      if p.vectorCount < 0 {
        return p.vectorCount;
      }
      if p.vectorCount < 16 {
        return -EINVAL;
      }
      if nEvents > p.vectorCount {
        return -ENOSPC;
      }
      if !p.memory {
        return -ENOMEM;
      }
      present := true;
      table := seq(nEvents, (i: nat) => MsixEntry(i, 0));
      if p.granted < 0 {
        present := false;
        return p.granted;
      }
      vectors := true;
      if p.granted < nEvents {
        vectors, present := false, false;
        return -ENOSPC;
      }
      ret := LookUp(p);
      if ret < 0 {
        vectors, present := false, false;
        return;
      }
      ret := RequestAll(p);
      if ret != 0 {
        vectors, present := false, false;
      }
    }

    /** Fills in the IRQ numbers; only a look-up, so there is nothing to undo. */
    method LookUp(p: Platform) returns (ret: int)
      requires nEvents <= |p.irq| && |table| == nEvents && forall i | 0 <= i < nEvents :: table[i].entry == i
      modifies this`table
      ensures |table| == nEvents && forall i | 0 <= i < nEvents :: table[i].entry == i
      ensures ret < 0 <==> exists i | 0 <= i < nEvents :: p.irq[i] < 0
      ensures forall k: nat | FirstBad(p.irq, nEvents, k, true) :: ret == p.irq[k]
      ensures ret >= 0 ==> forall i | 0 <= i < nEvents :: table[i].vector == p.irq[i]
    {
      ret := 0;
      for i := 0 to nEvents
        invariant |table| == nEvents && forall j | 0 <= j < nEvents :: table[j].entry == j
        invariant ret >= 0
        invariant forall j | 0 <= j < i :: p.irq[j] >= 0 && table[j].vector == p.irq[j]
      {
        ret := p.irq[i];
        if ret < 0 {
          return;
        }
        table := table[i := table[i].(vector := ret)];
      }
      ret := 0;
    }

    /** Attaches the handler to every IRQ, or detaches the ones already done. */
    method RequestAll(p: Platform) returns (ret: int)
      requires nEvents <= |p.request| && |table| == nEvents && GoodTable(table) && requested == {}
      modifies this`requested
      ensures ret == 0 <==> forall i | 0 <= i < nEvents :: p.request[i] == 0
      ensures requested == if ret == 0 then Irqs(table) else {}
      ensures forall k: nat | FirstBad(p.request, nEvents, k, false) :: ret == p.request[k]
    {
      ret := 0;
      for last := 0 to nEvents
        invariant ret == 0 && requested == Irqs(table[..last])
        invariant forall i | 0 <= i < last :: p.request[i] == 0
      {
        ret := p.request[last];
        if ret != 0 {
          FreeFirst(last);
          return;
        }
        requested := requested + {table[last].vector};
        assert table[..last + 1] == table[..last] + [table[last]];
        assert requested == Irqs(table[..last + 1]);
      }
      assert table[..nEvents] == table;
    }

    /** famez_ISR_teardown frees nClients + 2 IRQs: exactly those of a complete set-up when the
        server's event count is the number of clients plus two, as it always is.  A second call
        does nothing. */
    method Teardown()
      requires Nothing() || Everything()
      requires nEvents == nClients + 2
      modifies this
      ensures Nothing()
    {
      if !present {
        return;
      }
      assert table[..nClients + 2] == table;
      FreeFirst(nClients + 2);
      vectors := false;
      present := false;
    }
  }
}
