/** The toast list of App.tsx: `addNotification` appends, and the timer it starts
    removes every toast carrying the new toast's id. Ids come from the clock in the
    source; here the caller supplies them. */
module Notifications {
  import opened Types
  import opened Seqs

  datatype Notification = Notification(id: string, message: string, kind: Severity)

  /** The list without the toasts whose id is `id`, in the same order
      (`prev.filter(n => n.id !== id)`). */
  function RemoveById(ns: seq<Notification>, id: string): (r: seq<Notification>)
    ensures IsSubsequence(r, ns)
    ensures forall n :: n in r <==> n in ns && n.id != id
    ensures forall n :: multiset(r)[n] == if n.id != id then multiset(ns)[n] else 0
  {
    if ns == [] then []
    else
      assert ns == [ns[0]] + ns[1..];
      if ns[0].id != id then [ns[0]] + RemoveById(ns[1..], id)
      else RemoveById(ns[1..], id)
  }

  /** Expiring a toast whose id nothing else carries undoes its `addNotification`. */
  lemma {:induction false} ExpireUndoesAdd(ns: seq<Notification>, n: Notification)
    requires forall m :: m in ns ==> m.id != n.id
    ensures RemoveById(ns + [n], n.id) == ns
  {
    if ns != [] {
      assert (ns + [n])[1..] == ns[1..] + [n];
      ExpireUndoesAdd(ns[1..], n);
    }
  }

  /** Removing an id nobody carries changes nothing. */
  lemma {:induction false} RemoveAbsentId(ns: seq<Notification>, id: string)
    requires forall m :: m in ns ==> m.id != id
    ensures RemoveById(ns, id) == ns
  {
    if ns != [] {
      RemoveAbsentId(ns[1..], id);
    }
  }

  /** Two toasts created with the same id (two calls in one millisecond) are both
      removed when the first one's timer fires. */
  lemma SharedIdExpiresBoth(ns: seq<Notification>, a: Notification, b: Notification)
    requires a.id == b.id
    ensures a !in RemoveById(ns + [a, b], a.id) && b !in RemoveById(ns + [a, b], a.id)
  {
  }
}
