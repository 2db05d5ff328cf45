/** A buffered Go channel used the way covibe uses every one of them: producers
    offer with a `select` that has a default branch, so an offer to a full queue is
    dropped instead of blocking, one consumer takes from the front, and the channel
    is closed once. `offered` is the history of all offers. */
module Channels {
  import opened Sequences

  datatype Chan<T> = Chan(cap: nat, queue: seq<T>, taken: seq<T>, offered: seq<T>, overflowed: bool, closed: bool) {

    function Offer(x: T): Chan<T>
      requires !closed
    {
      if |queue| < cap then this.(queue := queue + [x], offered := offered + [x])
      else this.(offered := offered + [x], overflowed := true)
    }

    function Take(): Chan<T>
      requires queue != []
    {
      this.(queue := queue[1..], taken := taken + [queue[0]])
    }

    /** A consumer that takes up to n. */
    function Drain(n: nat): Chan<T> {
      var m := if n < |queue| then n else |queue|;
      this.(queue := queue[m..], taken := taken + queue[..m])
    }

    function Close(): Chan<T>
      requires !closed
    {
      this.(closed := true)
    }

    /** What the consumer has or will get is what was offered, in order, with
        gaps only after an overflow, and the backlog is bounded. */
    ghost predicate Sound() {
      && |queue| <= cap
      && Subsequence(taken + queue, offered)
      && (!overflowed ==> taken + queue == offered)
    }

    lemma OfferSound(x: T)
      requires Sound() && !closed
      ensures Offer(x).Sound()
    {
      if |queue| < cap {
        SubsequenceKeep(taken + queue, offered, x);
        assert taken + (queue + [x]) == taken + queue + [x];
      } else {
        SubsequenceSkip(taken + queue, offered, x);
      }
    }

    lemma DrainSound(n: nat)
      requires Sound()
      ensures Drain(n).Sound()
    {
      var m := if n < |queue| then n else |queue|;
      assert taken + queue[..m] + queue[m..] == taken + queue;
    }

    lemma TakeSound()
      requires Sound() && queue != []
      ensures Take().Sound()
    {
      assert taken + [queue[0]] + queue[1..] == taken + queue;
    }
  }

  /** One producer's offers, in order: before the k-th the consumer takes up to pace(k). */
  function Fed<T>(items: seq<T>, pace: nat -> nat, cap: nat): (c: Chan<T>)
    ensures !c.closed && c.cap == cap
  {
    if items == [] then NewChan(cap)
    else
      var k := |items| - 1;
      Fed(items[..k], pace, cap).Drain(pace(k)).Offer(items[k])
  }

  function Less(n: nat, m: nat): nat {
    if n < m then 0 else n - m
  }

  /** The backlog after k offers to a queue of 256, counted without the queue. */
  function Backlog(k: nat, pace: nat -> nat): nat {
    if k == 0 then 0
    else
      var found := Less(Backlog(k - 1, pace), pace(k - 1));
      if found < 256 then found + 1 else found
  }

  /** Whether one of the first k offers finds 256 queued. */
  predicate EverFull(k: nat, pace: nat -> nat) {
    k > 0 && (EverFull(k - 1, pace) || Less(Backlog(k - 1, pace), pace(k - 1)) >= 256)
  }

  lemma FedSnoc<T>(items: seq<T>, x: T, pace: nat -> nat, cap: nat)
    ensures Fed(items + [x], pace, cap) == Fed(items, pace, cap).Drain(pace(|items|)).Offer(x)
  {
    assert (items + [x])[..|items|] == items;
  }

  lemma OfferAfterDrain<T>(c: Chan<T>, n: nat, x: T)
    requires c.Sound() && c.cap == 256 && !c.closed
    ensures var found, d := Less(|c.queue|, n), c.Drain(n).Offer(x);
            && d.Sound() && d.offered == c.offered + [x]
            && |d.queue| == (if found < 256 then found + 1 else found) <= 256
            && (d.overflowed <==> c.overflowed || found >= 256)
  {
    c.DrainSound(n);
    c.Drain(n).OfferSound(x);
  }

  lemma {:induction false} FedIsSound<T>(items: seq<T>, pace: nat -> nat)
    ensures Fed(items, pace, 256).Sound() && Fed(items, pace, 256).offered == items
  {
    if items != [] {
      var k := |items| - 1;
      FedIsSound(items[..k], pace);
      OfferAfterDrain(Fed(items[..k], pace, 256), pace(k), items[k]);
      assert items[..k] + [items[k]] == items;
    }
  }

  /** The backlog is what the count says. */
  lemma {:induction false} FedCounts<T>(items: seq<T>, pace: nat -> nat)
    ensures |Fed(items, pace, 256).queue| == Backlog(|items|, pace) <= 256
  {
    if items != [] {
      var k := |items| - 1;
      FedCounts(items[..k], pace);
      FedIsSound(items[..k], pace);
      OfferAfterDrain(Fed(items[..k], pace, 256), pace(k), items[k]);
    }
  }

  /** A queue of 256 loses an offer exactly if one finds 256 queued; all others join. */
  lemma {:induction false} FedLosesExactly<T>(items: seq<T>, pace: nat -> nat)
    ensures Fed(items, pace, 256).overflowed <==> EverFull(|items|, pace)
  {
    if items != [] {
      var k := |items| - 1;
      FedLosesExactly(items[..k], pace);
      FedIsSound(items[..k], pace);
      FedCounts(items[..k], pace);
      OfferAfterDrain(Fed(items[..k], pace, 256), pace(k), items[k]);
    }
  }

  function NewChan<T>(cap: nat): Chan<T> {
    Chan(cap, [], [], [], false, false)
  }
}
