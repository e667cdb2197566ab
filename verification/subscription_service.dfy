/** The subscription listener: walks the broker's subscriptions, hands each one that has a
    handler to it, skips the others, and stops at the end of the iteration, at an iterator
    error, or at the first handler that fails.

    The iterator is the finite sequence of what its successive `Next` calls return. Running
    off the end of the sequence counts as `Done`. */
module SubscriptionService {
  import opened Wrappers
  import opened Types
  import opened Broker
  import opened HttpUtils
  import opened NotificationHandler
  import opened SubscriptionStrategy

  /** One `Next` result: a subscription, the `iterator.Done` sentinel, or another error. */
  datatype IterItem = Next(sub: Subscription) | Done | Failed(err: string)

  /** The error `Listen` returns: the iterator's own error, unchanged, or the fixed
      processing error that replaces a handler's. */
  datatype ListenError = IteratorError(err: string) | ProcessingFailed
  {
    function Message(): (m: string)
      ensures IteratorError? ==> m == err
    {
      match this
      case IteratorError(e) => e
      case ProcessingFailed => "Erro ao processar assinatura"
    }
  }

  /** What `Listen` did: the ids of the subscriptions it handed to a handler, in order, and
      the error it returned. */
  datatype ListenResult = ListenResult(handled: seq<string>, err: Option<ListenError>)

  /** A subscription the lookup finds a handler for. */
  predicate Routed<H>(item: IterItem, getHandler: string -> Option<H>)
  {
    item.Next? && getHandler(item.sub.id).Some?
  }

  /** An item at which the loop ends: `Done`, an iterator error, or a routed subscription
      whose handler fails. */
  predicate Stops<H>(item: IterItem, getHandler: string -> Option<H>, handle: (H, SubscriptionAdapter) -> Option<string>)
  {
    || item.Done?
    || item.Failed?
    || (Routed(item, getHandler) && handle(getHandler(item.sub.id).value, NewSubscriptionAdapter(item.sub)).Some?)
  }

  /** `Listen`, with the strategy's lookup and the handlers' `Handle` as parameters. */
  function Listen<H>(items: seq<IterItem>, getHandler: string -> Option<H>,
                     handle: (H, SubscriptionAdapter) -> Option<string>): (r: ListenResult)
    ensures |r.handled| <= |items|
    ensures forall id :: id in r.handled ==> getHandler(id).Some?
    ensures r.err.Some? && r.err.value.IteratorError? ==> Failed(r.err.value.err) in items
    ensures r.err == Some(ProcessingFailed) ==> |r.handled| > 0
    ensures (forall id :: getHandler(id).None?) ==> r.handled == [] && r.err != Some(ProcessingFailed)
    decreases |items|
  {
    if |items| == 0 then ListenResult([], None)
    else
      match items[0]
      case Done => ListenResult([], None)
      case Failed(e) => ListenResult([], Some(IteratorError(e)))
      case Next(sub) =>
        var h := getHandler(sub.id);
        if h.None? then
          var rest := Listen(items[1..], getHandler, handle);
          assert forall e :: Failed(e) in items[1..] ==> Failed(e) in items;
          rest
        else if handle(h.value, NewSubscriptionAdapter(sub)).Some? then
          ListenResult([sub.id], Some(ProcessingFailed))
        else
          var rest := Listen(items[1..], getHandler, handle);
          assert forall e :: Failed(e) in items[1..] ==> Failed(e) in items;
          ListenResult([sub.id] + rest.handled, rest.err)
  }

  /** The position of the first stopping item, or the length when none stops. */
  function FirstStop<H>(items: seq<IterItem>, getHandler: string -> Option<H>,
                        handle: (H, SubscriptionAdapter) -> Option<string>): (k: nat)
    ensures k <= |items|
    ensures forall i :: 0 <= i < k ==> !Stops(items[i], getHandler, handle)
    ensures k < |items| ==> Stops(items[k], getHandler, handle)
    decreases |items|
  {
    if |items| == 0 then 0
    else if Stops(items[0], getHandler, handle) then 0
    else 1 + FirstStop(items[1..], getHandler, handle)
  }

  /** The ids of the routed subscriptions among `items`, in order. */
  function RoutedIds<H>(items: seq<IterItem>, getHandler: string -> Option<H>): (ids: seq<string>)
    ensures |ids| <= |items|
    decreases |items|
  {
    if |items| == 0 then []
    else if Routed(items[0], getHandler) then [items[0].sub.id] + RoutedIds(items[1..], getHandler)
    else RoutedIds(items[1..], getHandler)
  }

  /** `Listen` against its reference description: up to the first stopping item every
      routed subscription is handled, in iterator order, and skipped ones are not; a
      failing handler's subscription is the last one handled; the error is decided by the
      stopping item alone. */
  lemma {:induction false} ListenCharacterization<H>(items: seq<IterItem>, getHandler: string -> Option<H>,
                                                      handle: (H, SubscriptionAdapter) -> Option<string>)
    ensures var k := FirstStop(items, getHandler, handle);
            Listen(items, getHandler, handle) == ListenResult(
              RoutedIds(items[..k], getHandler) + (if k < |items| && items[k].Next? then [items[k].sub.id] else []),
              if k == |items| || items[k].Done? then None
              else if items[k].Failed? then Some(IteratorError(items[k].err))
              else Some(ProcessingFailed))
    decreases |items|
  {
    var k := FirstStop(items, getHandler, handle);
    if |items| > 0 && !Stops(items[0], getHandler, handle) {
      ListenCharacterization(items[1..], getHandler, handle);
      assert items[1..][..k - 1] == items[..k][1..];
    } else if |items| > 0 {
      assert items[..k] == [];
    }
  }

  /** Nothing after a stopping item is looked at: whatever follows it, the result is the
      same. */
  lemma {:induction false} ListenStopsAt<H>(prefix: seq<IterItem>, rest: seq<IterItem>,
                                            getHandler: string -> Option<H>,
                                            handle: (H, SubscriptionAdapter) -> Option<string>)
    requires |prefix| > 0 && Stops(prefix[|prefix| - 1], getHandler, handle)
    ensures Listen(prefix + rest, getHandler, handle) == Listen(prefix, getHandler, handle)
    decreases |prefix|
  {
    var items := prefix + rest;
    assert items[0] == prefix[0];
    if |prefix| > 1 {
      assert items[1..] == prefix[1..] + rest;
      ListenStopsAt(prefix[1..], rest, getHandler, handle);
      if Stops(prefix[0], getHandler, handle) {
      }
    }
  }

  /** An iterator that is done at once succeeds without handling anything. */
  lemma ListenEmpty<H>(rest: seq<IterItem>, getHandler: string -> Option<H>,
                       handle: (H, SubscriptionAdapter) -> Option<string>)
    ensures Listen([Done] + rest, getHandler, handle) == ListenResult([], None)
  {
  }

  /** The service as wired in production: the environment's routing table and the
      notification handler, delivering through `net`. */
  function ListenNotifications(cfg: Config, items: seq<IterItem>, net: Net): (r: ListenResult)
    ensures forall id :: id in r.handled ==>
              GetHandler(NewSubscriptionHandlerStrategy(cfg), id).Some?
  {
    var strategy := NewSubscriptionHandlerStrategy(cfg);
    Listen(items, (id: string) => GetHandler(strategy, id),
           (h: NotificationHandler, a: SubscriptionAdapter) => Handle(h, a, net).err)
  }

  /** Outside production and staging no subscription is ever handled, and the only error is
      an iterator's. */
  lemma UnknownEnvironmentHandlesNothing(cfg: Config, items: seq<IterItem>, net: Net)
    requires cfg.environment != "prod" && cfg.environment != "hml"
    ensures ListenNotifications(cfg, items, net).handled == []
    ensures ListenNotifications(cfg, items, net).err != Some(ProcessingFailed)
  {
  }
}
