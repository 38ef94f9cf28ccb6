/** The `Event` table (prisma/schema.prisma): one row per thing that happened to one subscriber. */
module Events {
  import opened Prelude

  type EventId = nat
  type CampaignId = nat
  type SubscriberId = nat

  datatype EventType =
    | SENT | DELIVERED | CLICKED | DISMISSED | SUBSCRIBED | UNSUBSCRIBED | PROMPT_SHOWN | PROMPT_ACCEPTED
    | FAILED | PROMPT_ALLOW_CLICKED | PROMPT_DECLINED

  datatype Event = Event(
    typ: EventType,
    campaign: Option<CampaignId>,
    subscriber: Option<SubscriberId>,
    createdAt: int)

  type EventTable = map<EventId, Event>
}
