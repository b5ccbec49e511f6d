// The push rules of the background service: flattening, following account data, matching events
// (MatrixSDK/Background/MXBackgroundPushRulesManager.swift, MatrixSDK/JSONModels/MXJSONModels.m).
module PushRules {
  import opened Wrappers

  datatype Kind = Override | Content | Room | Sender | Underride

  // Parameters of a condition that a checker reads.
  datatype Parameters = Parameters(key: Option<string>, pattern: Option<string>, comparison: Option<string>)

  datatype Condition = Condition(kind: string, parameters: Parameters)

  datatype ActionType = Notify | DontNotify | Coalesce | SetTweak | CustomAction

  datatype Rule = Rule(kind: Kind, ruleId: string, enabled: bool, pattern: Option<string>,
                       conditions: seq<Condition>, actions: seq<ActionType>)

  // The five lists; a list that the homeserver did not send is `nil`.
  datatype RulesSet = RulesSet(override: Option<seq<Rule>>, content: Option<seq<Rule>>, room: Option<seq<Rule>>,
                               sender: Option<seq<Rule>>, underride: Option<seq<Rule>>)

  datatype Response = Response(global: Option<RulesSet>)

  const EVENT_MATCH := "event_match"
  const CONTAINS_DISPLAY_NAME := "contains_display_name"
  const ROOM_MEMBER_COUNT := "room_member_count"
  const SENDER_NOTIFICATION_PERMISSION := "sender_notification_permission"
  const PUSH_RULES := "m.push_rules"

  // An event in its room, as far as the manager itself looks; the checkers see all of it.
  datatype Event = Event(sender: Option<string>, roomId: string, json: string, roomState: string)

  /** The four condition checkers. What they decide is not modelled. */
  datatype Checkers = Checkers(
    eventMatch: (Parameters, Event) -> bool,
    displayName: (Parameters, Event) -> bool,
    memberCount: (Parameters, Event) -> bool,
    permission: (Parameters, Event) -> bool)

  predicate Recognised(c: Condition) {
    c.kind in {EVENT_MATCH, CONTAINS_DISPLAY_NAME, ROOM_MEMBER_COUNT, SENDER_NOTIFICATION_PERMISSION}
  }

  predicate Satisfied(k: Checkers, c: Condition, e: Event)
    requires Recognised(c)
  {
    if c.kind == EVENT_MATCH then k.eventMatch(c.parameters, e)
    else if c.kind == CONTAINS_DISPLAY_NAME then k.displayName(c.parameters, e)
    else if c.kind == ROOM_MEMBER_COUNT then k.memberCount(c.parameters, e)
    else k.permission(c.parameters, e)
  }

  /** What the condition loop really decides. */
  predicate ConditionsHold(k: Checkers, cs: seq<Condition>, e: Event) {
    && (forall i | 0 <= i < |cs| :: Recognised(cs[i]) ==> Satisfied(k, cs[i], e))
    && (cs == [] || Recognised(cs[|cs| - 1]))
  }

  /** What the Matrix specification asks for: every condition is understood and satisfied. */
  predicate AllHold(k: Checkers, cs: seq<Condition>, e: Event) {
    forall i | 0 <= i < |cs| :: Recognised(cs[i]) && Satisfied(k, cs[i], e)
  }

  function EquivalentParameters(r: Rule): Parameters
    requires r.kind.Content? || r.kind.Room? || r.kind.Sender?
  {
    match r.kind
    case Content => Parameters(Some("content.body"), r.pattern, None)
    case Room => Parameters(Some("room_id"), Some(r.ruleId), None)
    case Sender => Parameters(Some("user_id"), Some(r.ruleId), None)
  }

  predicate Matches(k: Checkers, r: Rule, e: Event) {
    if r.kind.Override? || r.kind.Underride? then ConditionsHold(k, r.conditions, e)
    else k.eventMatch(EquivalentParameters(r), e)
  }

  predicate Fires(k: Checkers, r: Rule, e: Event) {
    r.enabled && Matches(k, r, e)
  }

  /** When a rule of conditions fires, in the words of the specification: each condition of one of the four kinds is put
      to the checker of that kind; one of another kind matters only where it is the last. */
  lemma ConditionRuleFiresExactly(k: Checkers, r: Rule, e: Event)
    requires r.kind.Override? || r.kind.Underride?
    ensures Fires(k, r, e) <==>
            && r.enabled
            && (forall c | c in r.conditions && c.kind == "event_match" :: k.eventMatch(c.parameters, e))
            && (forall c | c in r.conditions && c.kind == "contains_display_name" :: k.displayName(c.parameters, e))
            && (forall c | c in r.conditions && c.kind == "room_member_count" :: k.memberCount(c.parameters, e))
            && (forall c | c in r.conditions && c.kind == "sender_notification_permission" ::
                k.permission(c.parameters, e))
            && (r.conditions != [] ==>
                  r.conditions[|r.conditions| - 1].kind in
                  {"event_match", "contains_display_name", "room_member_count", "sender_notification_permission"})
  {
    KindsDiffer();
    if Fires(k, r, e) {
      forall c | c in r.conditions && Recognised(c) ensures Satisfied(k, c, e) {
        var i :| 0 <= i < |r.conditions| && r.conditions[i] == c;
      }
    } else if r.enabled && (r.conditions == [] || Recognised(r.conditions[|r.conditions| - 1])) {
      var i :| 0 <= i < |r.conditions| && Recognised(r.conditions[i]) && !Satisfied(k, r.conditions[i], e);
      assert r.conditions[i] in r.conditions;
    }
  }

  lemma KindsDiffer()
    ensures "event_match" != "contains_display_name" && "event_match" != "room_member_count"
    ensures "event_match" != "sender_notification_permission" && "contains_display_name" != "room_member_count"
    ensures "contains_display_name" != "sender_notification_permission"
    ensures "room_member_count" != "sender_notification_permission"
  {
    assert "event_match"[0] == 'e' && "contains_display_name"[0] == 'c' && "room_member_count"[0] == 'r';
    assert "sender_notification_permission"[0] == 's';
  }

  /** A content, room or sender rule fires on the one condition that it stands for. */
  lemma ShorthandRuleFiresExactly(k: Checkers, r: Rule, e: Event)
    ensures r.kind.Content? ==>
              (Fires(k, r, e) <==> r.enabled && k.eventMatch(Parameters(Some("content.body"), r.pattern, None), e))
    ensures r.kind.Room? ==>
              (Fires(k, r, e) <==> r.enabled && k.eventMatch(Parameters(Some("room_id"), Some(r.ruleId), None), e))
    ensures r.kind.Sender? ==>
              (Fires(k, r, e) <==> r.enabled && k.eventMatch(Parameters(Some("user_id"), Some(r.ruleId), None), e))
  {
  }

  /** The loop agrees with the specification for all checkers and events exactly when a list that ends in a recognised
      condition holds no unrecognised one. The order of the others does not matter. */
  lemma LoopMeetsSpecificationExactly(cs: seq<Condition>)
    ensures (forall k: Checkers, e: Event :: ConditionsHold(k, cs, e) <==> AllHold(k, cs, e))
            <==> (cs != [] && Recognised(cs[|cs| - 1]) ==> forall i | 0 <= i < |cs| :: Recognised(cs[i]))
  {
    if cs != [] && Recognised(cs[|cs| - 1]) && exists i :: 0 <= i < |cs| && !Recognised(cs[i]) {
      var yes := (p: Parameters, e: Event) => true;
      var k := Checkers(yes, yes, yes, yes);
      var e := Event(None, "", "", "");
      assert ConditionsHold(k, cs, e) && !AllHold(k, cs, e);
    } else {
      forall k: Checkers, e: Event ensures ConditionsHold(k, cs, e) <==> AllHold(k, cs, e) {
        if AllHold(k, cs, e) && cs != [] {
          assert Recognised(cs[|cs| - 1]);
        }
      }
    }
  }

  /** The shortest list on which they part: an unrecognised condition before a satisfied one. */
  lemma UnrecognisedThenSatisfiedMatches(k: Checkers, c: Condition, e: Event)
    requires Recognised(c) && Satisfied(k, c, e)
    ensures var cs := [Condition("profile_tag", c.parameters), c];
            ConditionsHold(k, cs, e) && !AllHold(k, cs, e) && !ConditionsHold(k, [cs[1], cs[0]], e)
  {
    var cs := [Condition("profile_tag", c.parameters), c];
    assert !Recognised(cs[0]);
  }

  // `MXPushRule.models(fromJSON:)` stamps the list's kind on each of its rules.
  predicate OfKind(rules: Option<seq<Rule>>, kind: Kind) {
    rules.Some? ==> forall i | 0 <= i < |rules.value| :: rules.value[i].kind == kind
  }

  predicate Stamped(s: RulesSet) {
    OfKind(s.override, Override) && OfKind(s.content, Content) && OfKind(s.room, Room)
    && OfKind(s.sender, Sender) && OfKind(s.underride, Underride)
  }

  function Flatten(response: Option<Response>): seq<Rule> {
    if response.None? || response.value.global.None? then []
    else FlattenSet(response.value.global.value)
  }

  function FlattenSet(s: RulesSet): seq<Rule> {
    s.override.Or([]) + s.content.Or([]) + s.room.Or([]) + s.sender.Or([]) + s.underride.Or([])
  }

  // `if let rules = ... { tmpRules.append(contentsOf: rules) }`
  function Appended(rules: seq<Rule>, more: Option<seq<Rule>>): (all: seq<Rule>)
    ensures all == rules + more.Or([])
  {
    if more.Some? then rules + more.value else rules
  }

  /** The first rule of a list that fires. */
  function FirstFiring(k: Checkers, rules: seq<Rule>, e: Event): Option<Rule> {
    if rules == [] then None
    else if Fires(k, rules[0], e) then Some(rules[0])
    else FirstFiring(k, rules[1..], e)
  }

  lemma {:induction false} FirstFiringMeaning(k: Checkers, rules: seq<Rule>, e: Event)
    ensures match FirstFiring(k, rules, e)
            case None => forall j | 0 <= j < |rules| :: !Fires(k, rules[j], e)
            case Some(r) => exists i :: 0 <= i < |rules| && rules[i] == r && Fires(k, r, e)
                                        && forall j | 0 <= j < i :: !Fires(k, rules[j], e)
  {
    if rules != [] && !Fires(k, rules[0], e) {
      FirstFiringMeaning(k, rules[1..], e);
      match FirstFiring(k, rules[1..], e) {
        case None =>
          assert forall j | 0 < j < |rules| :: rules[j] == rules[1..][j - 1];
        case Some(r) =>
          var i :| 0 <= i < |rules| - 1 && rules[1..][i] == r && forall j | 0 <= j < i :: !Fires(k, rules[1..][j], e);
          assert forall j | 0 < j <= i :: rules[j] == rules[1..][j - 1];
          assert rules[i + 1] == r;
      }
    }
  }

  lemma {:induction false} FirstFiringSplits(k: Checkers, a: seq<Rule>, b: seq<Rule>, e: Event)
    ensures FirstFiring(k, a + b, e) == if FirstFiring(k, a, e).Some? then FirstFiring(k, a, e)
            else FirstFiring(k, b, e)
  {
    if a == [] {
      assert a + b == b;
    } else {
      FirstFiringSplits(k, a[1..], b, e);
      assert (a + b)[1..] == a[1..] + b;
    }
  }

  /** The specification's priorities: a tier is consulted only when no rule of the tiers before it fires. */
  function Tiered(k: Checkers, s: RulesSet, e: Event): Option<Rule> {
    var o := FirstFiring(k, s.override.Or([]), e);
    var c := FirstFiring(k, s.content.Or([]), e);
    var r := FirstFiring(k, s.room.Or([]), e);
    var n := FirstFiring(k, s.sender.Or([]), e);
    if o.Some? then o else if c.Some? then c else if r.Some? then r else if n.Some? then n
    else FirstFiring(k, s.underride.Or([]), e)
  }

  /** Scanning the flat list is consulting the tiers in order. */
  lemma ScanIsTiered(k: Checkers, s: RulesSet, e: Event)
    ensures FirstFiring(k, Flatten(Some(Response(Some(s)))), e) == Tiered(k, s, e)
  {
    var o, c, r, n, u := s.override.Or([]), s.content.Or([]), s.room.Or([]), s.sender.Or([]), s.underride.Or([]);
    FirstFiringSplits(k, o, c, e);
    FirstFiringSplits(k, o + c, r, e);
    FirstFiringSplits(k, o + c + r, n, e);
    FirstFiringSplits(k, o + c + r + n, u, e);
  }

  function Enabled(rules: seq<Rule>): seq<Rule> {
    if rules == [] then [] else (if rules[0].enabled then [rules[0]] else []) + Enabled(rules[1..])
  }

  /** Disabled rules never matter: only the enabled ones decide, wherever disabled ones are inserted, removed or
      changed. */
  lemma {:induction false} DisabledRulesDoNotMatter(k: Checkers, rules: seq<Rule>, others: seq<Rule>, e: Event)
    requires Enabled(rules) == Enabled(others)
    ensures FirstFiring(k, rules, e) == FirstFiring(k, others, e)
  {
    OnlyEnabledMatter(k, rules, e);
    OnlyEnabledMatter(k, others, e);
  }

  lemma {:induction false} OnlyEnabledMatter(k: Checkers, rules: seq<Rule>, e: Event)
    ensures FirstFiring(k, rules, e) == FirstFiring(k, Enabled(rules), e)
  {
    if rules != [] {
      OnlyEnabledMatter(k, rules[1..], e);
      if rules[0].enabled {
        assert ([rules[0]] + Enabled(rules[1..]))[1..] == Enabled(rules[1..]);
      } else {
        assert [] + Enabled(rules[1..]) == Enabled(rules[1..]);
      }
    }
  }

  // One event of a user's account data; `content` is present when it is a dictionary, read as push rules.
  datatype AccountEvent = AccountEvent(kind: Option<string>, content: Option<Response>)

  predicate CarriesRules(e: AccountEvent) {
    e.kind == Some(PUSH_RULES) && e.content.Some?
  }

  /** The rules that a history of account data events leaves in force. */
  function LastRules(before: Option<Response>, events: seq<AccountEvent>): Option<Response> {
    if events == [] then before
    else if CarriesRules(events[|events| - 1]) then events[|events| - 1].content
    else LastRules(before, events[..|events| - 1])
  }

  lemma {:induction false} LastRulesOfBatches(before: Option<Response>, a: seq<AccountEvent>, b: seq<AccountEvent>)
    ensures LastRules(LastRules(before, a), b) == LastRules(before, a + b)
  {
    if b == [] {
      assert a + b == a;
    } else if !CarriesRules(b[|b| - 1]) {
      LastRulesOfBatches(before, a, b[..|b| - 1]);
      assert (a + b)[..|a + b| - 1] == a + b[..|b| - 1];
    }
  }

  lemma CarriesRulesExactly(e: AccountEvent)
    ensures CarriesRules(e) <==> e.kind == Some("m.push_rules") && e.content.Some?
  {
  }

  predicate NoRulesFrom(events: seq<AccountEvent>, from: nat) {
    forall j | from <= j < |events| :: !CarriesRules(events[j])
  }

  /** The rules in force are those of the last event that carries rules. */
  lemma {:induction false} LastRulesExactly(before: Option<Response>, events: seq<AccountEvent>, i: nat)
    requires i < |events| && CarriesRules(events[i]) && NoRulesFrom(events, i + 1)
    ensures LastRules(before, events) == events[i].content
  {
    if i < |events| - 1 {
      var init := events[..|events| - 1];
      assert forall j | 0 <= j < |init| :: init[j] == events[j];
      LastRulesExactly(before, init, i);
    }
  }

  /** Without such an event they are the former ones. */
  lemma {:induction false} FormerRulesStay(before: Option<Response>, events: seq<AccountEvent>)
    requires NoRulesFrom(events, 0)
    ensures LastRules(before, events) == before
  {
    if events != [] {
      FormerRulesStay(before, events[..|events| - 1]);
    }
  }

  // The first action that says not to notify decides.
  predicate Mutes(rule: Rule) {
    DontNotify in rule.actions && rule.enabled
  }

  function RoomRule(rules: seq<Rule>, roomId: string): Option<Rule> {
    if rules == [] then None else if rules[0].ruleId == roomId then Some(rules[0]) else RoomRule(rules[1..], roomId)
  }

  datatype Answer = Is(mentionsOnly: bool) | Trap

  /** `isRoomMentionsOnly(_:)`; rules without a global set trap where the set is unwrapped. */
  function MentionsOnly(response: Option<Response>, roomId: string): Answer {
    if response.None? then Is(false)
    else if response.value.global.None? then Trap
    else
      var rule := RoomRule(response.value.global.value.room.Or([]), roomId);
      Is(rule.Some? && Mutes(rule.value))
  }

  /** A room is mentions-only exactly when the first of the room rules with its id is enabled and says not to notify. */
  lemma {:induction false} MentionsOnlyExactly(s: RulesSet, roomId: string)
    ensures var rules := if s.room.Some? then s.room.value else [];
            MentionsOnly(Some(Response(Some(s))), roomId) == Is(true) <==>
            exists i :: && 0 <= i < |rules| && rules[i].ruleId == roomId
                   && (forall j | 0 <= j < i :: rules[j].ruleId != roomId)
                        && rules[i].enabled && DontNotify in rules[i].actions
    ensures !MentionsOnly(Some(Response(Some(s))), roomId).Trap? && MentionsOnly(None, roomId) == Is(false)
  {
    var rules := s.room.Or([]);
    FirstRoomRule(rules, roomId);
  }

  lemma {:induction false} FirstRoomRule(rules: seq<Rule>, roomId: string)
    ensures match RoomRule(rules, roomId)
            case None => forall j | 0 <= j < |rules| :: rules[j].ruleId != roomId
            case Some(r) => exists i :: 0 <= i < |rules| && rules[i] == r && r.ruleId == roomId
                                        && forall j | 0 <= j < i :: rules[j].ruleId != roomId
  {
    if rules != [] && rules[0].ruleId != roomId {
      FirstRoomRule(rules[1..], roomId);
      match RoomRule(rules[1..], roomId) {
        case None =>
          assert forall j | 0 < j < |rules| :: rules[j] == rules[1..][j - 1];
        case Some(r) =>
          var i :| 0 <= i < |rules| - 1 && rules[1..][i] == r
                   && forall j | 0 <= j < i :: rules[1..][j].ruleId != roomId;
          assert forall j | 0 < j <= i :: rules[j] == rules[1..][j - 1];
          assert rules[i + 1] == r;
      }
    }
  }

  // The rules are there and have no global set.
  predicate Traps(response: Option<Response>) {
    response.Some? && response.value.global.None?
  }

  /** After any account data a room can be asked about, except exactly when the last push rules that arrived have no
      global set, or none arrived and those before had none. */
  lemma {:induction false} MentionsOnlyTrapsExactly(before: Option<Response>, events: seq<AccountEvent>, roomId: string)
    ensures MentionsOnly(LastRules(before, events), roomId).Trap? <==>
            || (exists i | 0 <= i < |events| ::
                  CarriesRules(events[i]) && Traps(events[i].content) && NoRulesFrom(events, i + 1))
            || (NoRulesFrom(events, 0) && Traps(before))
  {
    if events != [] {
      var n := |events| - 1;
      if CarriesRules(events[n]) {
        assert NoRulesFrom(events, n + 1);
      } else {
        var init := events[..n];
        MentionsOnlyTrapsExactly(before, init, roomId);
        forall i | 0 <= i <= n ensures NoRulesFrom(events, i) <==> NoRulesFrom(init, i) {
          assert forall j | 0 <= j < n :: events[j] == init[j];
        }
        assert forall i | 0 <= i < n :: events[i] == init[i];
      }
    }
  }

  /** In a mentions-only room an event always matches a rule: the room's own rule or one before it in the flat order,
      never a sender or underride rule. Room rules are taken to match the room they are named after. */
  lemma MentionsOnlyAgreesWithMatching(k: Checkers, s: RulesSet, e: Event)
    requires Stamped(s) && MentionsOnly(Some(Response(Some(s))), e.roomId) == Is(true)
    requires k.eventMatch(Parameters(Some("room_id"), Some(e.roomId), None), e)
    ensures var matched := FirstFiring(k, FlattenSet(s), e);
            matched.Some? && matched.value.kind in {Override, Content, Room}
            && exists i, j :: 0 <= i <= j < |FlattenSet(s)|
                              && FlattenSet(s)[i] == matched.value
                              && Some(FlattenSet(s)[j]) == RoomRule(s.room.Or([]), e.roomId)
  {
    var before, rooms := s.override.Or([]) + s.content.Or([]), s.room.Or([]);
    var after := s.sender.Or([]) + s.underride.Or([]);
    var flat := FlattenSet(s);
    assert flat == before + rooms + after;
    var p := RoomRuleIndex(rooms, e.roomId);
    var j := |before| + p;
    assert flat[j] == rooms[p];
    assert Fires(k, flat[j], e);
    FirstFiringMeaning(k, flat, e);
    var matched := FirstFiring(k, flat, e).value;
    var i :| 0 <= i < |flat| && flat[i] == matched && forall m | 0 <= m < i :: !Fires(k, flat[m], e);
    assert i <= j;
    FlatKind(s, i);
    hide Stamped;
  }

  lemma FlatKind(s: RulesSet, i: nat)
    requires Stamped(s) && i < |s.override.Or([]) + s.content.Or([]) + s.room.Or([])|
    ensures i < |FlattenSet(s)| && FlattenSet(s)[i].kind in {Override, Content, Room}
  {
    var override, content, rooms := s.override.Or([]), s.content.Or([]), s.room.Or([]);
    assert FlattenSet(s)[i] == (override + content + rooms)[i];
    assert i < |override| ==> (override + content + rooms)[i] == override[i];
  }

  /** A concrete case: account data that brings push rules without a global set to a fresh manager. */
  lemma RulesWithoutGlobalTrap(roomId: string)
    ensures MentionsOnly(LastRules(None, [AccountEvent(Some(PUSH_RULES), Some(Response(None)))]), roomId) == Trap
  {
    var events := [AccountEvent(Some(PUSH_RULES), Some(Response(None)))];
    MentionsOnlyTrapsExactly(None, events, roomId);
    assert CarriesRules(events[0]) && Traps(events[0].content) && NoRulesFrom(events, 1);
  }

  lemma {:induction false} RoomRuleIndex(rules: seq<Rule>, roomId: string) returns (p: nat)
    requires RoomRule(rules, roomId).Some?
    ensures p < |rules| && rules[p].ruleId == roomId && Some(rules[p]) == RoomRule(rules, roomId)
  {
    if rules[0].ruleId == roomId {
      p := 0;
    } else {
      p := RoomRuleIndex(rules[1..], roomId);
      p := p + 1;
    }
  }

  // The condition object that content, room and sender rules are rewritten into, one after the other.
  class ScratchCondition {
    var parameters: Parameters

    constructor ()
      ensures parameters == Parameters(None, None, None)
    {
      parameters := Parameters(None, None, None);
    }
  }

  class BackgroundPushRulesManager {
    const userId: Option<string>
    const checkers: Checkers
    var pushRulesResponse: Option<Response>
    var flatRules: seq<Rule>

    predicate Valid()
      reads this
    {
      flatRules == Flatten(pushRulesResponse)
    }

    constructor (userId: Option<string>, checkers: Checkers)
      ensures Valid() && pushRulesResponse == None && this.userId == userId && this.checkers == checkers
    {
      this.userId, this.checkers := userId, checkers;
      pushRulesResponse, flatRules := None, [];
    }

    // Assignment to `pushRulesResponse` with its `didSet` observer.
    method SetPushRulesResponse(response: Option<Response>)
      modifies this
      ensures Valid() && pushRulesResponse == response
    {
      pushRulesResponse := response;
      var tmpRules := [];
      if response.Some? && response.value.global.Some? {
        var global := response.value.global.value;
        tmpRules := Appended(tmpRules, global.override);
        assert tmpRules == global.override.Or([]);
        tmpRules := Appended(tmpRules, global.content);
        tmpRules := Appended(tmpRules, global.room);
        tmpRules := Appended(tmpRules, global.sender);
        tmpRules := Appended(tmpRules, global.underride);
        assert tmpRules == FlattenSet(global);
      }
      flatRules := tmpRules;
    }

    /** The flat rules follow the last push rules delivered; a missing event list changes nothing. */
    method HandleAccountData(events: Option<seq<AccountEvent>>)
      requires Valid()
      modifies this
      ensures Valid() && pushRulesResponse == LastRules(old(pushRulesResponse), events.Or([]))
    {
      if events.None? {
        return;
      }
      for i := 0 to |events.value|
        invariant Valid() && pushRulesResponse == LastRules(old(pushRulesResponse), events.value[..i])
      {
        assert events.value[..i + 1][..i] == events.value[..i];
        var event := events.value[i];
        if event.kind == Some(PUSH_RULES) && event.content.Some? {
          SetPushRulesResponse(event.content);
        }
      }
      assert events.value[..|events.value|] == events.value;
    }

    method IsRoomMentionsOnly(roomId: string) returns (answer: Answer)
      ensures answer == MentionsOnly(pushRulesResponse, roomId)
    {
      if pushRulesResponse.None? {
        return Is(false);
      }
      if pushRulesResponse.value.global.None? {
        return Trap;
      }
      var rule := RoomRule(pushRulesResponse.value.global.value.room.Or([]), roomId);
      if rule.None? {
        return Is(false);
      }
      for i := 0 to |rule.value.actions|
        invariant DontNotify !in rule.value.actions[..i]
      {
        if rule.value.actions[i].DontNotify? {
          return Is(rule.value.enabled);
        }
      }
      assert rule.value.actions[..|rule.value.actions|] == rule.value.actions;
      return Is(false);
    }

    /** The first enabled rule of the flat list that matches, for events of other users. */
    method PushRule(event: Event) returns (matched: Option<Rule>)
      requires Valid()
      ensures matched == if event.sender == userId then None else FirstFiring(checkers, flatRules, event)
    {
      if event.sender == userId {
        return None;
      }
      var equivalentCondition := new ScratchCondition();
      var rules := flatRules;
      for i := 0 to |rules|
        invariant FirstFiring(checkers, rules, event) == FirstFiring(checkers, rules[i..], event)
      {
        var rule := rules[i];
        if rule.enabled {
          var conditionsOk, runEquivalent := true, false;
          match rule.kind {
            case Override | Underride =>
              conditionsOk := RunConditions(rule.conditions, event);
            case Content =>
              equivalentCondition.parameters := Parameters(Some("content.body"), rule.pattern, None);
              runEquivalent := true;
            case Room =>
              equivalentCondition.parameters := Parameters(Some("room_id"), Some(rule.ruleId), None);
              runEquivalent := true;
            case Sender =>
              equivalentCondition.parameters := Parameters(Some("user_id"), Some(rule.ruleId), None);
              runEquivalent := true;
          }
          if runEquivalent {
            conditionsOk := checkers.eventMatch(equivalentCondition.parameters, event);
          }
          if conditionsOk {
            return Some(rule);
          }
        }
      }
      return None;
    }

    method RunConditions(conditions: seq<Condition>, event: Event) returns (conditionsOk: bool)
      ensures conditionsOk == ConditionsHold(checkers, conditions, event)
    {
      conditionsOk := true;
      for i := 0 to |conditions|
        invariant forall j | 0 <= j < i :: Recognised(conditions[j]) ==> Satisfied(checkers, conditions[j], event)
        invariant conditionsOk == (i == 0 || Recognised(conditions[i - 1]))
      {
        var condition := conditions[i];
        if Recognised(condition) {
          conditionsOk := Satisfied(checkers, condition, event);
          if !conditionsOk {
            break;
          }
        } else {
          conditionsOk := false;
        }
      }
    }
  }
}
