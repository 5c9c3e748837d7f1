/** The relay side of the bridge as the event handlers see it: the
    notifications they can post, and the guard of `sendDiscordNotification`
    (handlers/minecraftEvents.js), which posts only when the relay client
    exists, is ready, a channel is selected and that channel is cached, and
    is otherwise a silent no-op. Rendering of the rich notification is not
    modelled: a notification is its kind and the values it reports. */
module Relay {

  /** What the guard can observe of the relay. */
  datatype RelayView = RelayView(client: bool, ready: bool, channelId: string, channelCached: bool)

  predicate CanSend(r: RelayView) {
    r.client && r.ready && r.channelId != "" && r.channelCached
  }

  /** The notifications the core decides on. */
  datatype Notice =
    | Connected
    | Died(deaths: nat)
    | Respawned
    | Sunrise(hour: int)
    | Sunset(hour: int)
    | BlockMined(block: string)
    | XpReached(points: int)
    | RareEntity(entity: string)
    | CriticalHealth(health: real, food: real)
    | LowFood(food: real, health: real)
    | Disconnected(deaths: nat)
    | ValuablePickup(item: string)
    | InventoryNearlyFull(filled: nat, total: nat)
    | Achievement(message: string)
    | PortalActivity(message: string)
    | CombatAction(entity: string)

  /** `sendDiscordNotification`: what actually goes out for one notice. */
  function Post(r: RelayView, n: Notice): (sent: seq<Notice>)
    ensures sent == [] || sent == [n]
    ensures sent == [n] <==> CanSend(r)
  {
    if CanSend(r) then [n] else []
  }
}
