/** The routing table from subscription id to handler, fixed by the deployment environment
    when it is built. */
module SubscriptionStrategy {
  import opened Wrappers
  import opened Enum
  import opened Types
  import opened NotificationHandler

  datatype Strategy = Strategy(handlers: map<string, NotificationHandler>)

  /** `NewSubscriptionHandlerStrategy`: production listens on the production subscription,
      staging ("hml") on the staging one, and any other environment on none. */
  function NewSubscriptionHandlerStrategy(cfg: Config): (s: Strategy)
    ensures cfg.environment == "prod" ==> s.handlers.Keys == {NotificationTopic}
    ensures cfg.environment == "hml" ==> s.handlers.Keys == {HmlNotificationTopic}
    ensures cfg.environment != "prod" && cfg.environment != "hml" ==> s.handlers == map[]
    ensures |s.handlers| <= 1
    ensures forall t :: t in s.handlers ==> s.handlers[t] == NewNotificationHandler(cfg)
  {
    var handlers: map<string, NotificationHandler> := map[];
    var handlers := if cfg.environment == "prod" then handlers[NotificationTopic := NewNotificationHandler(cfg)] else handlers;
    var handlers := if cfg.environment == "hml" then handlers[HmlNotificationTopic := NewNotificationHandler(cfg)] else handlers;
    Strategy(handlers)
  }

  /** `GetHandler`: exact-match lookup of a subscription id. */
  function GetHandler(s: Strategy, topic: string): (h: Option<NotificationHandler>)
    ensures h.Some? <==> topic in s.handlers
    ensures h.Some? ==> h.value == s.handlers[topic]
  {
    if topic in s.handlers then Some(s.handlers[topic]) else None
  }

  /** The whole routing policy: an id has a handler exactly when it is the subscription of
      the environment, and the handler carries the configuration. */
  lemma RoutingByEnvironment(cfg: Config, topic: string)
    ensures GetHandler(NewSubscriptionHandlerStrategy(cfg), topic).Some? <==>
              (cfg.environment == "prod" && topic == NotificationTopic)
              || (cfg.environment == "hml" && topic == HmlNotificationTopic)
    ensures GetHandler(NewSubscriptionHandlerStrategy(cfg), topic).Some? ==>
              GetHandler(NewSubscriptionHandlerStrategy(cfg), topic).value.config == cfg
  {
    var s := NewSubscriptionHandlerStrategy(cfg);
    if cfg.environment == "prod" {
      assert topic in s.handlers <==> topic in {NotificationTopic};
    } else if cfg.environment == "hml" {
      assert topic in s.handlers <==> topic in {HmlNotificationTopic};
    }
  }
}
