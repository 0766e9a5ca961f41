/**
 The payload event queue of TLM-2.0 (`peq_with_get`): transactions kept in the order of the time
 at which they become visible, first in first out among equal times.
 */
module PayloadQueue {
  /** A transaction object, known by its address. */
  type Txn = int

  datatype Entry = Entry(due: nat, txn: Txn)

  type Queue = seq<Entry>

  /** Schedules `x` for time `due`, after every entry that is not later. */
  function Notify(q: Queue, x: Txn, due: nat): Queue {
    if q == [] || due < q[0].due then [Entry(due, x)] + q
    else [q[0]] + Notify(q[1..], x, due)
  }

  /** How often the transaction is in the queue. */
  function Count(q: Queue, x: Txn): nat {
    if q == [] then 0 else (if q[0].txn == x then 1 else 0) + Count(q[1..], x)
  }

  ghost predicate Sorted(q: Queue) {
    forall i, j | 0 <= i < j < |q| :: q[i].due <= q[j].due
  }

  /** Every entry for `x` becomes visible only after time `t`. */
  ghost predicate OnlyAfter(q: Queue, x: Txn, t: nat) {
    forall e | e in q && e.txn == x :: e.due > t
  }

  /** Scheduling adds exactly the one transaction. */
  lemma {:induction false} NotifyCount(q: Queue, x: Txn, due: nat, y: Txn)
    ensures Count(Notify(q, x, due), y) == Count(q, y) + if x == y then 1 else 0
  {
    if q == [] || due < q[0].due {
      assert Notify(q, x, due)[1..] == q;
    } else {
      NotifyCount(q[1..], x, due, y);
      assert Notify(q, x, due)[1..] == Notify(q[1..], x, due);
    }
  }

  lemma {:induction false} NotifyEntries(q: Queue, x: Txn, due: nat)
    ensures forall e :: e in Notify(q, x, due) <==> e in q || e == Entry(due, x)
    ensures |Notify(q, x, due)| == |q| + 1
  {
    if q == [] || due < q[0].due {
    } else {
      NotifyEntries(q[1..], x, due);
      assert q == [q[0]] + q[1..];
    }
  }

  /** The queue stays in time order, so its head is always the next transaction to become visible. */
  lemma {:induction false} NotifySorted(q: Queue, x: Txn, due: nat)
    requires Sorted(q)
    ensures Sorted(Notify(q, x, due))
  {
    if q == [] || due < q[0].due {
    } else {
      NotifySorted(q[1..], x, due);
      NotifyEntries(q[1..], x, due);
      var rest := Notify(q[1..], x, due);
      forall j | 0 <= j < |rest| ensures q[0].due <= rest[j].due {
        assert rest[j] in rest;
        if rest[j] in q[1..] {
          var i :| 0 <= i < |q[1..]| && q[1..][i] == rest[j];
          assert q[i + 1] == rest[j];
        }
      }
    }
  }

  /** The new entry stands behind all that are not later, those of the same time included, and before all that are. */
  lemma {:induction false} NotifyPlace(q: Queue, x: Txn, due: nat) returns (i: nat)
    requires Sorted(q)
    ensures i <= |q| && Notify(q, x, due) == q[..i] + [Entry(due, x)] + q[i..]
    ensures (forall j | 0 <= j < i :: q[j].due <= due) && (forall j | i <= j < |q| :: due < q[j].due)
  {
    if q == [] || due < q[0].due {
      i := 0;
    } else {
      var h := NotifyPlace(q[1..], x, due);
      i := h + 1;
      assert q[..i] == [q[0]] + q[1..][..h] && q[i..] == q[1..][h..];
      forall j | 0 <= j < i ensures q[j].due <= due {
        if j > 0 { assert q[j] == q[1..][j - 1]; }
      }
      forall j | i <= j < |q| ensures due < q[j].due {
        assert q[j] == q[1..][j - 1];
      }
    }
  }

  lemma {:induction false} CountEntry(q: Queue, x: Txn)
    ensures Count(q, x) > 0 <==> exists e :: e in q && e.txn == x
  {
    if q != [] {
      CountEntry(q[1..], x);
      assert q == [q[0]] + q[1..];
      if x == q[0].txn {
        assert q[0] in q;
      }
    }
  }
}
