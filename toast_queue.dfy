/**
 * The toast queue of the page shell: a list of visible toasts and, beside
 * it, a map from toast id to the auto-dismiss timer still pending for it.
 *
 * Ids come from one counter shared by every provider (a module-level
 * variable in the page code), so it is an object of its own here. Real
 * time is not modelled: a timer firing is the explicit event `Expire`, and
 * the ghost set `pending` holds the ids whose timer callbacks the runtime
 * still has scheduled.
 */
module Toasts {
  import opened Wrappers

  datatype ToastType = Success | Error | Info
  datatype Toast = Toast(id: int, message: string, kind: ToastType)

  /** What `setTimeout` hands back in a browser: a positive number, so always truthy. */
  type TimerHandle = h: int | h > 0 witness 1

  /** The module-level `nextId`. */
  class IdCounter {
    var next: nat

    constructor ()
      ensures next == 0
    {
      next := 0;
    }
  }

  /** `prev.filter(t => t.id !== id)`. */
  function WithoutId(toasts: seq<Toast>, id: int): (r: seq<Toast>)
    ensures |r| <= |toasts|
    ensures forall t :: t in r <==> t in toasts && t.id != id
  {
    if toasts == [] then []
    else
      var last := toasts[|toasts| - 1];
      assert toasts == toasts[..|toasts| - 1] + [last];
      WithoutId(toasts[..|toasts| - 1], id) + (if last.id != id then [last] else [])
  }

  ghost function Ids(toasts: seq<Toast>): set<int> {
    set t | t in toasts :: t.id
  }

  predicate IdsIncreasing(toasts: seq<Toast>) {
    forall i, j :: 0 <= i < j < |toasts| ==> toasts[i].id < toasts[j].id
  }

  /** Filtering a toast out keeps the others in their order, so ids stay strictly increasing. */
  lemma {:induction false} WithoutIdKeepsOrder(toasts: seq<Toast>, id: int)
    requires IdsIncreasing(toasts)
    ensures IdsIncreasing(WithoutId(toasts, id))
  {
    if toasts != [] {
      var init := toasts[..|toasts| - 1];
      var last := toasts[|toasts| - 1];
      WithoutIdKeepsOrder(init, id);
      forall t | t in WithoutId(init, id) ensures t.id < last.id {
        var k :| 0 <= k < |init| && init[k] == t;
      }
    }
  }

  /** Filtering removes exactly the id from the ids shown. */
  lemma {:induction false} WithoutIdRemovesOnlyId(toasts: seq<Toast>, id: int)
    ensures Ids(WithoutId(toasts, id)) == Ids(toasts) - {id}
  {
    var r := WithoutId(toasts, id);
    forall x ensures x in Ids(r) <==> x in Ids(toasts) && x != id {
      if x in Ids(r) {
        var t :| t in r && t.id == x;
        assert t in toasts;
      }
      if x in Ids(toasts) && x != id {
        var t :| t in toasts && t.id == x;
        assert t in r;
      }
    }
  }

  /** Filtering an id that no toast carries changes nothing. */
  lemma {:induction false} WithoutIdUnknown(toasts: seq<Toast>, id: int)
    requires forall t :: t in toasts ==> t.id != id
    ensures WithoutId(toasts, id) == toasts
  {
    if toasts != [] {
      var init := toasts[..|toasts| - 1];
      assert toasts == init + [toasts[|toasts| - 1]];
      WithoutIdUnknown(init, id);
    }
  }

  /**
   * Filtering `id` out of toasts whose ids are `shown` leaves the ids
   * `shown - {id}`, still increasing, and changes nothing when `id` is not shown.
   */
  lemma WithoutIdKeepsSync(toasts: seq<Toast>, shown: set<int>, id: int)
    requires IdsIncreasing(toasts) && shown == Ids(toasts)
    ensures IdsIncreasing(WithoutId(toasts, id))
    ensures Ids(WithoutId(toasts, id)) == shown - {id}
    ensures id !in shown ==> WithoutId(toasts, id) == toasts
  {
    WithoutIdKeepsOrder(toasts, id);
    WithoutIdRemovesOnlyId(toasts, id);
    if id !in shown {
      forall t | t in toasts ensures t.id != id {
        assert t.id in Ids(toasts);
      }
      WithoutIdUnknown(toasts, id);
    }
  }

  /** Dismissing twice is dismissing once. */
  lemma {:induction false} WithoutIdIdempotent(toasts: seq<Toast>, id: int)
    ensures WithoutId(WithoutId(toasts, id), id) == WithoutId(toasts, id)
  {
    WithoutIdUnknown(WithoutId(toasts, id), id);
  }

  /**
   * Ids are fresh from the counter and strictly increasing; while the
   * provider is mounted, the timer map has an entry for exactly the shown
   * toasts and every entry's callback is scheduled; once unmounted, no
   * timer is left.
   */
  ghost predicate InSync(toasts: seq<Toast>, timers: map<int, TimerHandle>, pending: set<int>,
                         mounted: bool, next: int)
  {
    && IdsIncreasing(toasts)
    && (forall t :: t in toasts ==> 0 <= t.id < next)
    && (mounted ==> timers.Keys == Ids(toasts) && pending == timers.Keys)
    && (!mounted ==> timers == map[] && pending == {})
  }

  /** Removing one id from the toasts, the timer map and the scheduled callbacks keeps them in sync. */
  lemma RemovalKeepsSync(toasts: seq<Toast>, timers: map<int, TimerHandle>, pending: set<int>, next: int, id: int)
    requires InSync(toasts, timers, pending, true, next)
    ensures InSync(WithoutId(toasts, id), timers - {id}, pending - {id}, true, next)
    ensures id !in Ids(toasts) ==> WithoutId(toasts, id) == toasts
  {
    WithoutIdKeepsSync(toasts, timers.Keys, id);
  }

  class ToastProvider {
    const counter: IdCounter
    var toasts: seq<Toast>
    /** `timerMap`: toast id to its pending auto-dismiss timer. */
    var timers: map<int, TimerHandle>
    var mounted: bool
    /** The ids whose timeout callbacks are still scheduled. */
    ghost var pending: set<int>

    ghost predicate Valid()
      reads this, counter
    {
      InSync(toasts, timers, pending, mounted, counter.next)
    }

    constructor (counter: IdCounter)
      ensures Valid()
      ensures this.counter == counter && mounted
      ensures toasts == [] && timers == map[] && pending == {}
    {
      this.counter := counter;
      toasts, timers, mounted := [], map[], true;
      pending := {};
    }

    /** `showToast`: a new toast at the end under the next id, with its timer registered under that id. */
    method ShowToast(message: string, kind: Option<ToastType>, handle: TimerHandle)
      requires Valid() && mounted
      modifies this`toasts, this`timers, this`pending, counter
      ensures Valid() && mounted
      ensures counter.next == old(counter.next) + 1
      ensures toasts == old(toasts) + [Toast(old(counter.next), message, if kind.Some? then kind.value else Info)]
      ensures timers == old(timers)[old(counter.next) := handle]
      ensures pending == old(pending) + {old(counter.next)}
    {
      var id := counter.next;
      counter.next := counter.next + 1;
      var toast := Toast(id, message, if kind.Some? then kind.value else Info);
      assert id !in Ids(toasts);
      toasts := toasts + [toast];
      assert Ids(toasts) == Ids(old(toasts)) + {id};
      timers := timers[id := handle];
      pending := pending + {id};
    }

    /** The timeout for `id` fires: the toast and its map entry go. */
    method Expire(id: int)
      requires Valid() && id in pending
      modifies this`toasts, this`timers, this`pending
      ensures Valid() && mounted
      ensures toasts == WithoutId(old(toasts), id)
      ensures timers == old(timers) - {id}
      ensures pending == old(pending) - {id}
    {
      RemovalKeepsSync(toasts, timers, pending, counter.next, id);
      toasts := WithoutId(toasts, id);
      timers := timers - {id};
      pending := pending - {id};
    }

    /** `dismiss`: clear and forget the timer if there is one, then filter the toast out. */
    method Dismiss(id: int)
      requires Valid() && mounted
      modifies this`toasts, this`timers, this`pending
      ensures Valid() && mounted
      ensures toasts == WithoutId(old(toasts), id)
      ensures timers == old(timers) - {id}
      ensures pending == old(pending) - {id}
      ensures id !in Ids(old(toasts)) ==> toasts == old(toasts) && timers == old(timers)
    {
      RemovalKeepsSync(toasts, timers, pending, counter.next, id);
      if id in timers {
        // clearTimeout(timers[id])
        pending := pending - {id};
        timers := timers - {id};
      } else {
        assert timers == timers - {id} && pending == pending - {id};
      }
      toasts := WithoutId(toasts, id);
    }

    /** The effect cleanup on unmount: clear every pending timer, then empty the map. */
    method Unmount()
      requires Valid() && mounted
      modifies this`timers, this`pending, this`mounted
      ensures Valid() && !mounted
      ensures toasts == old(toasts)
      ensures timers == map[] && pending == {}
    {
      var remaining := timers.Keys;
      while remaining != {}
        invariant remaining <= timers.Keys
        invariant pending == remaining
        decreases remaining
      {
        var id :| id in remaining;
        // clearTimeout(timers[id])
        pending := pending - {id};
        remaining := remaining - {id};
      }
      timers := map[];
      mounted := false;
    }
  }
}
