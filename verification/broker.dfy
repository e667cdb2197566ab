/** The parts of the message broker the consumer touches: a subscription, the adapter the
    handlers receive, and how `Receive` hands messages to a callback. The broker client
    itself is external, so a subscription is modelled by what it will do: the message
    bodies it will deliver, in delivery order, and the error `Receive` will return. */
module Broker {
  import opened Wrappers
  import opened Json

  /** The terminal action a callback takes on one message. */
  datatype Disposition = Ack | Nack

  datatype Subscription = Subscription(id: string, messages: seq<Body>, receiveError: Option<string>)

  /** `SubscriptionAdapter`: forwards `ID` and `Receive` to the wrapped subscription. */
  datatype SubscriptionAdapter = SubscriptionAdapter(sub: Subscription)
  {
    function ID(): string
    {
      sub.id
    }
  }

  /** What one `Receive` call did: the action taken on each delivered message, in order,
      and the error it returned. */
  datatype ReceiveOutcome = ReceiveOutcome(dispositions: seq<Disposition>, err: Option<string>)

  function NewSubscriptionAdapter(sub: Subscription): (a: SubscriptionAdapter)
    ensures a.ID() == sub.id
    ensures a.sub.messages == sub.messages && a.sub.receiveError == sub.receiveError
  {
    SubscriptionAdapter(sub)
  }

  /** `Receive`: the callback runs once for every delivered message, in order, and the call
      returns the subscription's own error. */
  function Receive(a: SubscriptionAdapter, callback: Body -> Disposition): (r: ReceiveOutcome)
    ensures |r.dispositions| == |a.sub.messages|
    ensures forall i :: 0 <= i < |r.dispositions| ==> r.dispositions[i] == callback(a.sub.messages[i])
    ensures r.err == a.sub.receiveError
  {
    ReceiveOutcome(seq(|a.sub.messages|, i requires 0 <= i < |a.sub.messages| => callback(a.sub.messages[i])),
                   a.sub.receiveError)
  }
}
