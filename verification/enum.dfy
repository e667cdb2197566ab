/** The string enumerations of the domain: notification channels and subscription topics. */
module Enum {

  const EmailChannel: string := "EMAIL"
  const SmsChannel: string := "SMS"
  const WhatsappChannel: string := "WHATSAPP"
  const PushNotificationChannel: string := "PUSH_NOTIFICATION"

  /** The production subscription. */
  const NotificationTopic: string := "notifications-sub"
  /** The staging ("hml") subscription. */
  const HmlNotificationTopic: string := "hml-notifications-sub"
}
