/** The stateful part of handlers/minecraftEvents.js: the module-level
    variables the event handlers read and overwrite (`lastChatTime`,
    `deathCount`, `lastHealth`, `lastFood`, the `lastTimeState` of the current
    registration, the global pending-reply map and the two feedback lists),
    and the handlers themselves. A handler returns what it does, in order, as
    a list of effects; timers are effects that carry the delay and the
    callback to run. */
module Bridge {
  import opened Wrappers
  import opened Text
  import opened Segmenter
  import opened Commands
  import opened Relay
  import opened Monitors
  import Config

  /** A record of the feedback lists. */
  datatype Feedback = Feedback(username: string, rating: nat, feedbackType: string, source: string, timestamp: int)

  /** The callbacks handed to `setTimeout`. */
  datatype Deferred =
    | DeliverReply(username: string, response: string)
    | FollowUp(text: string)
    | RespawnAndNotify
    | WhisperBack(username: string, response: string)

  /** What a handler does. `SayStatus` is the status line, whose numbers are
      not modelled. */
  datatype Effect =
    | Notify(notice: Notice)
    | Mirror(line: string)
    | Say(text: string)
    | SayStatus
    | FollowPlayer(player: string)
    | ClearGoal
    | EnableAutoEat
    | Generate(username: string, prompt: string)
    | Respawn
    | After(delay: int, action: Deferred)

  // ---------------------------------------------------------------------------
  // Notifications and the chat mirror
  // ---------------------------------------------------------------------------

  /** A notice through `sendDiscordNotification`. */
  function Notified(r: RelayView, n: Notice): (es: seq<Effect>)
    ensures CanSend(r) ==> es == [Notify(n)]
    ensures !CanSend(r) ==> es == []
  {
    if Post(r, n) == [n] then [Notify(n)] else []
  }

  /** The line copied to the relay channel, under the same guard. */
  function Mirrored(r: RelayView, username: string, message: string): (es: seq<Effect>)
    ensures CanSend(r) ==> es == [Mirror("**[MC]** " + username + ": " + message)]
    ensures !CanSend(r) ==> es == []
  {
    if CanSend(r) then [Mirror("**[MC]** " + username + ": " + message)] else []
  }

  // ---------------------------------------------------------------------------
  // The reply line and its follow-ups
  // ---------------------------------------------------------------------------

  /** The line `formatAIMessage` returns for a reply. */
  function ReplyLine(response: string, prefixIdx: nat, decorIdx: nat): (line: string)
    requires prefixIdx < |Prefixes| && decorIdx < |Decorations|
  {
    if |response| > SplitThreshold then Prefixes[prefixIdx] + ": " + FirstOrUndefined(Chunks(response))
    else Prefixes[prefixIdx] + ": " + response + " " + Decorations[decorIdx]
  }

  /** The pending map after `formatAIMessage`: the chunks after the first,
      under the user's name, when there are any; otherwise unchanged. */
  function Stored(pending: map<string, seq<string>>, username: string, response: string): map<string, seq<string>> {
    if |response| > SplitThreshold && |Chunks(response)| > 1 then pending[username := Chunks(response)[1..]]
    else pending
  }

  /** The timers for follow-up chunks: chunk `i` (from 0) after
      `(i + 1) * 2000` ms, marked with "» ". */
  function FollowUps(msgs: seq<string>): (es: seq<Effect>)
    ensures |es| == |msgs|
    ensures forall i :: 0 <= i < |msgs| ==> es[i] == After((i + 1) * 2000, FollowUp("» " + msgs[i]))
  {
    seq(|msgs|, i requires 0 <= i < |msgs| => After((i + 1) * 2000, FollowUp("» " + msgs[i])))
  }

  /** For a long reply of plain words, the first line carries the first chunk
      and the follow-ups the rest, so together they give back every word in
      order; the follow-ups are two seconds apart. */
  lemma LongReplyDelivered(response: string, prefixIdx: nat, decorIdx: nat)
    requires prefixIdx < |Prefixes| && decorIdx < |Decorations|
    requires |response| > SplitThreshold && PlainWords(Split(response))
    ensures var cs := Chunks(response);
      && |cs| >= 1
      && ReplyLine(response, prefixIdx, decorIdx) == Prefixes[prefixIdx] + ": " + cs[0]
      && Join([cs[0]] + cs[1..]) == response
      && forall i :: 0 <= i < |cs| - 1 ==> FollowUps(cs[1..])[i].delay == 2000 * (i + 1)
  {
    ChunksRebuildReply(response);
    var cs := Chunks(response);
    assert [cs[0]] + cs[1..] == cs;
  }

  /** A long reply that starts with a space sends the bare tag as its line,
      and the whole text arrives two seconds later as the one follow-up. */
  lemma LeadingSpaceSendsBareTag(x: string, prefixIdx: nat, decorIdx: nat,
                                 pending: map<string, seq<string>>, username: string)
    requires prefixIdx < |Prefixes| && decorIdx < |Decorations|
    requires PlainWord(x) && |x| >= SplitThreshold
    ensures ReplyLine(" " + x, prefixIdx, decorIdx) == Prefixes[prefixIdx] + ": "
    ensures Stored(pending, username, " " + x) == pending[username := [x]]
    ensures FollowUps(Stored(pending, username, " " + x)[username]) == [After(2000, FollowUp("» " + x))]
  {
    EmptyWordMakesEmptyChunk(x);
    assert ["", x][1..] == [x];
    assert Prefixes[prefixIdx] + ": " + "" == Prefixes[prefixIdx] + ": ";
  }

  /** The `forEach` over the pending chunks: one timer per chunk. */
  method FollowUpTimers(msgs: seq<string>) returns (es: seq<Effect>)
    ensures es == FollowUps(msgs)
  {
    es := [];
    for i := 0 to |msgs|
      invariant es == FollowUps(msgs[..i])
    {
      assert FollowUps(msgs[..i + 1]) == FollowUps(msgs[..i]) + [After((i + 1) * 2000, FollowUp("» " + msgs[i]))];
      es := es + [After((i + 1) * 2000, FollowUp("» " + msgs[i]))];
    }
    assert msgs[..|msgs|] == msgs;
  }

  // ---------------------------------------------------------------------------
  // The chat handler's decisions
  // ---------------------------------------------------------------------------

  /** The cooldown gate of the conversational path (strict `>`). */
  predicate GateOpen(shouldRespond: bool, now: int, lastChatTime: int, cooldown: int) {
    shouldRespond && now - lastChatTime > cooldown
  }

  /** The prompt: a leading `.` is removed and the rest trimmed; any other
      line goes as it is. After a dot, the prompt is what remains of the text
      once the white space at both of its ends is cut away: it is empty or
      clean, and the text is white space, the prompt, and white space. */
  function CleanPrompt(message: string): (prompt: string)
    ensures message == [] || message[0] != '.' ==> prompt == message
    ensures message != [] && message[0] == '.' ==> prompt == [] || Clean(prompt)
    ensures message != [] && message[0] == '.' ==>
      exists a, b :: AllSpace(a) && AllSpace(b) && message[1..] == a + prompt + b
    ensures message != [] && message[0] == '.' ==> |prompt| < |message|
  {
    if message != [] && message[0] == '.' then
      TrimIsClean(message[1..]);
      TrimShortens(message[1..]);
      TrimPadded(message[1..]);
      Trim(message[1..])
    else message
  }

  lemma TrimShortens(s: string)
    ensures |Trim(s)| <= |s|
  {
    TrimStartShortens(s);
    TrimEndKeepsPrefix(TrimStart(s));
  }

  lemma {:induction false} TrimStartShortens(s: string)
    ensures |TrimStart(s)| <= |s|
    decreases |s|
  {
    if s != [] && IsJsSpace(s[0]) {
      TrimStartShortens(s[1..]);
    }
  }

  /** A truthy reply from the AI service. */
  predicate Truthy(generated: Option<string>) {
    generated.Some? && generated.value != ""
  }

  /** What the chat handler does after mirroring, for every rule except the
      rating rule. */
  function Respond(cmd: Command, username: string, message: string, playerKnown: bool,
                   gateOpen: bool, generated: Option<string>, jitter: int): seq<Effect>
    requires !cmd.Rate?
  {
    match cmd
    case Help => [Say(HelpReply)]
    case Status => [SayStatus]
    case FollowMe => if playerKnown then [FollowPlayer(username), Say(FollowingReply(username))] else []
    case Stop => [ClearGoal, Say(StoppedReply)]
    case FeedbackHint => [Say(FeedbackHintReply)]
    case Converse =>
      if gateOpen then
        [Generate(username, CleanPrompt(message))]
        + (if Truthy(generated) then [After(1000 + jitter, DeliverReply(username, generated.value))] else [])
      else []
  }

  /** The AI service is asked exactly when no command applies and the gate is
      open; a reply is scheduled, 1 to 3 seconds later, exactly when it also
      answered with a non-empty text. */
  lemma AIPathConditions(cmd: Command, username: string, message: string, playerKnown: bool,
                         gateOpen: bool, generated: Option<string>, jitter: int)
    requires !cmd.Rate? && 0 <= jitter < 2000
    ensures var es := Respond(cmd, username, message, playerKnown, gateOpen, generated, jitter);
      && ((exists i :: 0 <= i < |es| && es[i].Generate?) <==> cmd == Converse && gateOpen)
      && ((exists i :: 0 <= i < |es| && es[i].After?) <==> cmd == Converse && gateOpen && Truthy(generated))
      && forall i :: 0 <= i < |es| && es[i].After? ==> 1000 <= es[i].delay < 3000
  {
    var es := Respond(cmd, username, message, playerKnown, gateOpen, generated, jitter);
    if cmd == Converse && gateOpen {
      assert es[0].Generate?;
      if Truthy(generated) {
        assert es[1].After?;
      }
    }
  }

  // ---------------------------------------------------------------------------
  // Stateless handlers
  // ---------------------------------------------------------------------------

  /** `diggingCompleted`. */
  function OnDiggingCompleted(block: string, r: RelayView): (es: seq<Effect>)
    ensures es != [] <==> CanSend(r) && MentionsAny(block, BlockKeywords)
    ensures es != [] ==> es == [Notify(BlockMined(block))]
  {
    SignificantBlockKeywords(block);
    if IsSignificantBlock(block) then Notified(r, BlockMined(block)) else []
  }

  /** `experience`. */
  function OnExperience(points: Option<int>, r: RelayView): (es: seq<Effect>)
    ensures es != [] <==> CanSend(r) && exists m :: m >= 1 && points == Some(50 * m)
    ensures es != [] ==> es == [Notify(XpReached(points.value))]
  {
    if points.Some? then
      XpMilestoneMultiples(points.value);
      if XpMilestone(points) then Notified(r, XpReached(points.value)) else []
    else []
  }

  /** `entitySpawn`. */
  function OnEntitySpawn(displayName: Option<string>, name: Option<string>, r: RelayView): (es: seq<Effect>)
    ensures es != [] <==> CanSend(r) && MentionsAny(ToLower(EntityName(displayName, name)), RareMobs)
    ensures es != [] ==> es == [Notify(RareEntity(EntityName(displayName, name)))]
  {
    if IsRareEntity(displayName, name) then Notified(r, RareEntity(EntityName(displayName, name))) else []
  }

  /** `playerCollect`. */
  function OnPlayerCollect(collector: string, botUsername: string, itemName: Option<string>, r: RelayView): (es: seq<Effect>)
    ensures es != [] ==> collector == botUsername && es == [Notify(ValuablePickup(OrElse(itemName, "item")))]
    ensures es != [] <==> CanSend(r) && IsValuablePickup(collector, botUsername, itemName)
  {
    if IsValuablePickup(collector, botUsername, itemName) then Notified(r, ValuablePickup(OrElse(itemName, "item"))) else []
  }

  /** `windowOpen`: counts the slots of a watched window and reports it when
      more than 90% of them are occupied. */
  method OnWindowOpen(windowType: string, slots: seq<Option<int>>, r: RelayView) returns (es: seq<Effect>)
    ensures es != [] <==> CanSend(r) && InventoryAlert(windowType, slots)
    ensures es != [] ==> es == [Notify(InventoryNearlyFull(FilledCount(slots), |slots|))] && FilledCount(slots) > 0
  {
    es := [];
    if windowType == "minecraft:generic_9x1" || windowType == "minecraft:player" {
      var filled, total := CountSlots(slots);
      if 10 * filled > 9 * total {
        InventoryAlertNeedsItems(windowType, slots);
        es := Notified(r, InventoryNearlyFull(filled, total));
      }
    }
  }

  /** The respawn timer's callback. */
  function OnRespawnTimer(r: RelayView): (es: seq<Effect>)
    ensures CanSend(r) ==> es == [Respawn, Notify(Respawned)]
    ensures !CanSend(r) ==> es == [Respawn]
  {
    [Respawn] + Notified(r, Respawned)
  }

  /** The first `message` listener: advancement and challenge lines. */
  function OnAdvancementMessage(message: string, r: RelayView): (es: seq<Effect>)
    ensures es != [] <==>
      CanSend(r) && (Contains(message, "has made the advancement") || Contains(message, "has completed the challenge"))
    ensures es != [] ==> es == [Notify(Achievement(message))]
  {
    if Contains(message, "has made the advancement") || Contains(message, "has completed the challenge") then
      Notified(r, Achievement(message))
    else []
  }

  /** The second `message` listener: lines that name the bot and mention a
      portal or a dimension. (The third listener only logs.) */
  function OnPortalMessage(message: string, botUsername: string, r: RelayView): (es: seq<Effect>)
    ensures es != [] <==>
      CanSend(r) && Contains(message, botUsername) && (Contains(message, "portal") || Contains(message, "dimension"))
    ensures es != [] ==> es == [Notify(PortalActivity(message))]
  {
    if Contains(message, botUsername) && (Contains(message, "portal") || Contains(message, "dimension")) then
      Notified(r, PortalActivity(message))
    else []
  }

  /** `attackedTarget`: reported under `displayName || name` when that is
      not empty. */
  function OnAttackedTarget(displayName: Option<string>, name: Option<string>, r: RelayView): (es: seq<Effect>)
    ensures es != [] <==>
      CanSend(r) && ((displayName.Some? && displayName.value != "") || (name.Some? && name.value != ""))
    ensures es != [] ==> es == [Notify(CombatAction(OrElse(displayName, OrElse(name, ""))))]
  {
    var entityName := OrElse(displayName, OrElse(name, ""));
    if entityName != "" then Notified(r, CombatAction(entityName)) else []
  }

  /** `whisper`: the AI service is always asked, with the message as it is
      and no cooldown; a non-empty answer is whispered back a second later. */
  function OnWhisper(username: string, message: string, generated: Option<string>): (es: seq<Effect>)
    ensures |es| >= 1 && es[0] == Generate(username, message)
    ensures (exists i :: 0 <= i < |es| && es[i].After?) <==> Truthy(generated)
    ensures Truthy(generated) ==> es == [Generate(username, message), After(1000, WhisperBack(username, generated.value))]
  {
    var es := [Generate(username, message)]
      + (if Truthy(generated) then [After(1000, WhisperBack(username, generated.value))] else []);
    assert Truthy(generated) ==> es[1].After?;
    es
  }

  /** The health handler's effects, given the previous and current readings
      and whether auto-eat is both configured and loaded. */
  function HealthEffects(lastHealth: real, lastFood: real, health: real, food: real, r: RelayView, eat: bool): seq<Effect> {
    (if FallsCritical(lastHealth, health) then Notified(r, CriticalHealth(health, food)) + (if eat then [EnableAutoEat] else []) else [])
    + (if FallsCritical(lastFood, food) then Notified(r, LowFood(food, health)) else [])
  }

  /** The health notice goes out exactly on a falling edge of health, the
      food notice exactly on a falling edge of food, and auto-eat is enabled
      only on the health edge. */
  lemma HealthAlerts(lastHealth: real, lastFood: real, health: real, food: real, r: RelayView, eat: bool)
    ensures var es := HealthEffects(lastHealth, lastFood, health, food, r, eat);
      && (Notify(CriticalHealth(health, food)) in es <==> CanSend(r) && FallsCritical(lastHealth, health))
      && (Notify(LowFood(food, health)) in es <==> CanSend(r) && FallsCritical(lastFood, food))
      && (EnableAutoEat in es <==> eat && FallsCritical(lastHealth, health))
  {
  }

  /** The sunrise or sunset notice for a sample; the hour is
      `Math.floor(timeOfDay / 1000)`. */
  function PhaseNotice(timeOfDay: int): (n: Notice)
    ensures PhaseOf(timeOfDay) == Day <==> n.Sunrise?
    ensures (n.Sunrise? || n.Sunset?) && 1000 * n.hour <= timeOfDay < 1000 * (n.hour + 1)
  {
    if PhaseOf(timeOfDay) == Day then Sunrise(timeOfDay / 1000) else Sunset(timeOfDay / 1000)
  }

  // ---------------------------------------------------------------------------
  // The bridge state
  // ---------------------------------------------------------------------------

  class ChatBridge {
    const chatCooldown: int
    const autoRespawn: bool
    const autoEat: bool

    var lastChatTime: int
    var deathCount: nat
    var lastHealth: real
    var lastFood: real
    var lastTimeState: Option<DayPhase>
    var pending: map<string, seq<string>>
    var minecraftFeedback: seq<Feedback>
    var feedbackStorage: seq<Feedback>

    /** Between callbacks the pending map holds nothing: every entry is
        written and removed within one delivery. */
    predicate Quiescent()
      reads this
    {
      pending == map[]
    }

    /** The module loaded with the resolved configuration. */
    constructor (settings: Config.Config)
      ensures chatCooldown == settings.chatCooldown && autoRespawn == settings.autoRespawn && autoEat == settings.autoEat
      ensures lastChatTime == 0 && deathCount == 0 && lastHealth == FullLevel && lastFood == FullLevel
      ensures lastTimeState == None && minecraftFeedback == [] && feedbackStorage == []
      ensures Quiescent()
    {
      chatCooldown := settings.chatCooldown;
      autoRespawn := settings.autoRespawn;
      autoEat := settings.autoEat;
      lastChatTime := 0;
      deathCount := 0;
      lastHealth := FullLevel;
      lastFood := FullLevel;
      lastTimeState := None;
      pending := map[];
      minecraftFeedback := [];
      feedbackStorage := [];
    }

    /** `registerEvents`: each registration starts with no phase seen; all
        other state carries over. */
    method Register()
      modifies this`lastTimeState
      ensures lastTimeState == None
    {
      lastTimeState := None;
    }

    /** `formatAIMessage`, with the random picks as indices. */
    method FormatAIMessage(response: string, username: string, prefixIdx: nat, decorIdx: nat) returns (line: string)
      requires prefixIdx < |Prefixes| && decorIdx < |Decorations|
      modifies this`pending
      ensures line == ReplyLine(response, prefixIdx, decorIdx)
      ensures pending == Stored(old(pending), username, response)
      ensures |response| <= SplitThreshold ==> line == Prefixes[prefixIdx] + ": " + response + " " + Decorations[decorIdx]
      ensures |response| <= SplitThreshold || |Chunks(response)| <= 1 ==> pending == old(pending)
      ensures |response| > SplitThreshold && |Chunks(response)| > 1 ==> pending[username] == Chunks(response)[1..]
      ensures forall u :: u != username ==> (u in pending <==> u in old(pending))
    {
      var prefix := Prefixes[prefixIdx];
      if |response| > SplitThreshold {
        var messages := SplitReply(response);
        if |messages| > 1 {
          pending := pending[username := messages[1..]];
        }
        return prefix + ": " + FirstOrUndefined(messages);
      }
      line := prefix + ": " + response + " " + Decorations[decorIdx];
    }

    /** The delayed callback of the chat handler: send the formatted line,
        stamp `lastChatTime`, schedule the pending follow-ups for the user (if
        any) and delete them. */
    method DeliverReply(username: string, response: string, now: int, prefixIdx: nat, decorIdx: nat)
      returns (es: seq<Effect>)
      requires prefixIdx < |Prefixes| && decorIdx < |Decorations|
      modifies this`pending, this`lastChatTime
      ensures lastChatTime == now
      ensures var stored := Stored(old(pending), username, response);
        var follow := if username in stored then stored[username] else [];
        && es == [Say(ReplyLine(response, prefixIdx, decorIdx))] + FollowUps(follow)
        && pending == if follow != [] then stored - {username} else stored
      ensures old(Quiescent()) ==> Quiescent()
      ensures old(Quiescent()) ==>
        es == [Say(ReplyLine(response, prefixIdx, decorIdx))]
              + FollowUps(if |response| > SplitThreshold && |Chunks(response)| > 1 then Chunks(response)[1..] else [])
    {
      var line := FormatAIMessage(response, username, prefixIdx, decorIdx);
      lastChatTime := now;
      var follow: seq<string> := [];
      if username in pending && |pending[username]| > 0 {
        follow := pending[username];
        pending := pending - {username};
      }
      var timers := FollowUpTimers(follow);
      es := [Say(line)] + timers;
    }

    /** The rating rule's action: a rating from 1 to 5 appends a record to
        each feedback list and thanks the user; any other digit only replies
        with the allowed range. Both records carry the one time `now`. */
    method RecordRating(username: string, q: RateRequest, now: int) returns (reply: string)
      requires IsDigit(q.digit)
      modifies this`minecraftFeedback, this`feedbackStorage
      ensures 1 <= Rating(q) <= 5 ==>
        var f := Feedback(username, Rating(q), q.feedbackType, "minecraft", now);
        && minecraftFeedback == old(minecraftFeedback) + [f]
        && feedbackStorage == old(feedbackStorage) + [f]
        && reply == ThanksReply(username, Rating(q), q.feedbackType)
      ensures !(1 <= Rating(q) <= 5) ==>
        && minecraftFeedback == old(minecraftFeedback) && feedbackStorage == old(feedbackStorage)
        && reply == RatingRangeReply
    {
      var rating := Rating(q);
      if 1 <= rating <= 5 {
        var f := Feedback(username, rating, q.feedbackType, "minecraft", now);
        minecraftFeedback := minecraftFeedback + [f];
        feedbackStorage := feedbackStorage + [f];
        reply := ThanksReply(username, rating, q.feedbackType);
      } else {
        reply := RatingRangeReply;
      }
    }

    /** The `chat` handler up to the point where the reply is scheduled. The
        AI service's two answers, whether the sender is a known player, the
        clock and the random delay are inputs. It never writes
        `lastChatTime`. */
    method OnChat(username: string, message: string, botUsername: string, r: RelayView, playerKnown: bool,
                  shouldRespond: bool, now: int, generated: Option<string>, jitter: int)
      returns (es: seq<Effect>)
      requires 0 <= jitter < 2000
      modifies this`minecraftFeedback, this`feedbackStorage
      ensures lastChatTime == old(lastChatTime)
      ensures username == botUsername ==>
        es == [] && minecraftFeedback == old(minecraftFeedback) && feedbackStorage == old(feedbackStorage)
      ensures username != botUsername && !Classify(ToLower(message)).Rate? ==>
        && es == Mirrored(r, username, message)
                 + Respond(Classify(ToLower(message)), username, message, playerKnown,
                           GateOpen(shouldRespond, now, lastChatTime, chatCooldown), generated, jitter)
        && minecraftFeedback == old(minecraftFeedback) && feedbackStorage == old(feedbackStorage)
      ensures username != botUsername && Classify(ToLower(message)).Rate? ==>
        var q := Classify(ToLower(message)).request;
        && IsDigit(q.digit)
        && es == Mirrored(r, username, message)
                 + [Say(if 1 <= Rating(q) <= 5 then ThanksReply(username, Rating(q), q.feedbackType)
                        else RatingRangeReply)]
        && (1 <= Rating(q) <= 5 ==>
              var f := Feedback(username, Rating(q), q.feedbackType, "minecraft", now);
              && minecraftFeedback == old(minecraftFeedback) + [f]
              && feedbackStorage == old(feedbackStorage) + [f])
        && (!(1 <= Rating(q) <= 5) ==>
              minecraftFeedback == old(minecraftFeedback) && feedbackStorage == old(feedbackStorage))
    {
      if username == botUsername {
        return [];
      }
      es := Mirrored(r, username, message);
      var lower := ToLower(message);
      var cmd := Classify(lower);
      match cmd {
        case Rate(q) =>
          var reply := RecordRating(username, q, now);
          es := es + [Say(reply)];
        case _ =>
          var gate := shouldRespond && now - lastChatTime > chatCooldown;
          es := es + Respond(cmd, username, message, playerKnown, gate, generated, jitter);
      }
    }

    /** `spawn`: report the connection, enable auto-eat when configured and
        loaded, and take the current readings as the baseline. */
    method OnSpawn(health: Option<real>, food: Option<real>, r: RelayView, autoEatLoaded: bool)
      returns (es: seq<Effect>)
      modifies this`lastHealth, this`lastFood
      ensures lastHealth == Reading(health) && lastFood == Reading(food)
      ensures es == Notified(r, Connected) + (if autoEat && autoEatLoaded then [EnableAutoEat] else [])
    {
      es := Notified(r, Connected);
      if autoEat && autoEatLoaded {
        es := es + [EnableAutoEat];
      }
      lastHealth := Reading(health);
      lastFood := Reading(food);
    }

    /** `health`: alert on the falling edges, then overwrite both readings
        unconditionally. */
    method OnHealth(health: Option<real>, food: Option<real>, r: RelayView, autoEatLoaded: bool)
      returns (es: seq<Effect>)
      modifies this`lastHealth, this`lastFood
      ensures lastHealth == Reading(health) && lastFood == Reading(food)
      ensures es == HealthEffects(old(lastHealth), old(lastFood), Reading(health), Reading(food), r, autoEat && autoEatLoaded)
    {
      var h, f := Reading(health), Reading(food);
      es := [];
      if h <= CriticalLevel && lastHealth > CriticalLevel {
        es := Notified(r, CriticalHealth(h, f));
        if autoEat && autoEatLoaded {
          es := es + [EnableAutoEat];
        }
      }
      if f <= CriticalLevel && lastFood > CriticalLevel {
        es := es + Notified(r, LowFood(f, h));
      }
      lastHealth := h;
      lastFood := f;
    }

    /** A run of `health` events with the relay reachable: the critical
        health notices they send are exactly the alerts `Alerts` counts from
        the stored reading over the readings as `|| 20` takes them, and the
        last of those readings is what remains stored. */
    method HealthRun(healths: seq<Option<real>>, food: Option<real>, r: RelayView, autoEatLoaded: bool)
      returns (alerts: nat)
      requires CanSend(r)
      modifies this`lastHealth, this`lastFood
      ensures alerts == Alerts(old(lastHealth), Readings(healths))
      ensures lastHealth == LastReading(old(lastHealth), Readings(healths))
    {
      ghost var start := lastHealth;
      ghost var rs := Readings(healths);
      alerts := 0;
      for i := 0 to |healths|
        invariant alerts == Alerts(start, rs[..i])
        invariant lastHealth == LastReading(start, rs[..i])
      {
        var h := Reading(healths[i]);
        AlertsSnoc(start, rs[..i], h);
        HealthAlerts(lastHealth, lastFood, h, Reading(food), r, autoEat && autoEatLoaded);
        var es := OnHealth(healths[i], food, r, autoEatLoaded);
        if Notify(CriticalHealth(h, Reading(food))) in es {
          alerts := alerts + 1;
        }
        assert rs[..i + 1] == rs[..i] + [h];
      }
      assert rs[..|healths|] == rs;
    }

    /** `time`: with no time known nothing happens; otherwise a notice goes
        out when the phase differs from the last one seen, and the current
        phase is remembered. */
    method OnTime(timeOfDay: Option<int>, r: RelayView) returns (es: seq<Effect>)
      modifies this`lastTimeState
      ensures timeOfDay.None? ==> es == [] && lastTimeState == old(lastTimeState)
      ensures timeOfDay.Some? ==>
        && lastTimeState == Some(PhaseOf(timeOfDay.value))
        && es == if PhaseFlips(old(lastTimeState), timeOfDay.value) then Notified(r, PhaseNotice(timeOfDay.value)) else []
    {
      es := [];
      if timeOfDay.Some? {
        var t := timeOfDay.value;
        var current := PhaseOf(t);
        if lastTimeState != None && lastTimeState != Some(current) {
          es := Notified(r, PhaseNotice(t));
        }
        lastTimeState := Some(current);
      }
    }

    /** A run of `time` events with the relay reachable: the sunrise and
        sunset notices they send are exactly those `TimeNotices` counts from
        the phase seen so far. */
    method TimeRun(samples: seq<int>, r: RelayView) returns (notices: nat)
      requires CanSend(r)
      modifies this`lastTimeState
      ensures notices == TimeNotices(old(lastTimeState), samples)
      ensures lastTimeState == LastPhase(old(lastTimeState), samples)
    {
      ghost var start := lastTimeState;
      notices := 0;
      for i := 0 to |samples|
        invariant notices == TimeNotices(start, samples[..i])
        invariant lastTimeState == LastPhase(start, samples[..i])
      {
        var t := samples[i];
        TimeNoticesSnoc(start, samples[..i], t);
        var es := OnTime(Some(t), r);
        notices := notices + |es|;
        assert samples[..i + 1] == samples[..i] + [t];
      }
      assert samples[..|samples|] == samples;
    }

    /** `death`: count the death, report the new count, and schedule the
        respawn when enabled. */
    method OnDeath(r: RelayView) returns (es: seq<Effect>)
      modifies this`deathCount
      ensures deathCount == old(deathCount) + 1
      ensures es == Notified(r, Died(deathCount)) + (if autoRespawn then [After(2000, RespawnAndNotify)] else [])
    {
      deathCount := deathCount + 1;
      es := Notified(r, Died(deathCount));
      if autoRespawn {
        es := es + [After(2000, RespawnAndNotify)];
      }
    }

    /** `end`: report the session's deaths, then start counting again. */
    method OnEnd(r: RelayView) returns (es: seq<Effect>)
      modifies this`deathCount
      ensures deathCount == 0
      ensures es == Notified(r, Disconnected(old(deathCount)))
    {
      es := Notified(r, Disconnected(deathCount));
      deathCount := 0;
    }
  }

  /** Pacing as the code has it: two lines 500 ms apart that both arrive
      before the first reply is delivered both get a reply scheduled, because
      `lastChatTime` is stamped only on delivery; once a reply has been
      delivered, a line inside the cooldown gets none. */
  method CooldownStampedOnDelivery(settings: Config.Config, username: string, botUsername: string,
                                   message: string, reply: string, t: int, r: RelayView)
    returns (first: seq<Effect>, second: seq<Effect>, third: seq<Effect>)
    requires username != botUsername && !MentionsCommand(ToLower(message)) && reply != ""
    requires 500 <= settings.chatCooldown < t
    ensures |first| >= 1 && first[|first| - 1] == After(1000, DeliverReply(username, reply))
    ensures |second| >= 1 && second[|second| - 1] == After(1000, DeliverReply(username, reply))
    ensures forall i :: 0 <= i < |third| ==> !third[i].Generate? && !third[i].After?
  {
    ConverseIffNoCommand(ToLower(message));
    var prompt := [Generate(username, CleanPrompt(message)), After(1000, DeliverReply(username, reply))];
    assert Respond(Converse, username, message, true, true, Some(reply), 0) == prompt;
    var bridge := new ChatBridge(settings);
    first := bridge.OnChat(username, message, botUsername, r, true, true, t, Some(reply), 0);
    assert first == Mirrored(r, username, message) + prompt;
    second := bridge.OnChat(username, message, botUsername, r, true, true, t + 500, Some(reply), 0);
    assert second == Mirrored(r, username, message) + prompt;
    var delivered := bridge.DeliverReply(username, reply, t + 1000, 0, 0);
    assert bridge.lastChatTime == t + 1000;
    third := bridge.OnChat(username, message, botUsername, r, true, true, t + 1500, Some(reply), 0);
    assert third == Mirrored(r, username, message);
  }
}
