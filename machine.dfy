/** The page as a state machine: the abstract state the DOM handlers of
    script.js read and write, one event per handler, and the transition
    function `Next` that says what each handler does to that state. The class
    in page.dfy implements each handler and is proved to follow `Next`. */
module TripMachine {

  import opened Wrappers
  import opened Roster
  import opened CodeInput
  import opened Responses
  import opened Gate

  /** The id of a screen element; `show(id)` makes it the active one. */
  type ScreenId = string

  const StartScreen: ScreenId := "screen-start"
  const ResponseScreen: ScreenId := "screen-response"
  const EmergencyScreen: ScreenId := "screen-emergency"
  const RoadmapScreen: ScreenId := "day-1"

  /** Everything the handlers read or write.
      - responses: the stored map under `trip_responses`;
      - currentUser: the stored value under `currentUserCode`, if any;
      - screen: the active screen;
      - locks: card i's buttons are disabled (card i shows People[i]);
      - acks: the acknowledgement boxes' checked flags;
      - ackWired: the start screen was wired (at least four boxes);
      - startDisabled: the start screen's continue button is disabled. */
  datatype State = State(
    responses: ResponseMap,
    currentUser: Option<string>,
    screen: ScreenId,
    locks: seq<bool>,
    acks: seq<bool>,
    ackWired: bool,
    startDisabled: bool)

  /** The user actions the page reacts to. */
  datatype Event =
    | Validate(input: string)                   // the validate button, with the typed code
    | Reset                                     // the reset button
    | Answer(card: nat, yes: bool, ts: Timestamp) // a card's Interested (yes) / Not Interested button
    | SetAck(box: nat, checked: bool)           // an acknowledgement box changes
    | StartContinue                             // the start screen's continue button
    | ResponseNext                              // the response screen's next button
    | EmergencyBack                             // the emergency screen's back button
    | EmergencyContinue                         // the emergency screen's continue button
    | Navigate(target: ScreenId)                // any element carrying data-goto="target"

  /** `boxes.every(b => b.checked)` (script.js:67). */
  function EveryChecked(boxes: seq<bool>): (all: bool)
    ensures all <==> forall i :: 0 <= i < |boxes| ==> boxes[i]
  {
    boxes == [] || (boxes[0] && EveryChecked(boxes[1..]))
  }

  /** The card lock flags that `lockAllCards(true)` (no user) or
      `unlockCard(code)` leave: only the card whose code is the user's is enabled. */
  function LocksFor(user: Option<string>): (locks: seq<bool>)
    ensures |locks| == |People|
    ensures forall i :: 0 <= i < |People| ==> (!locks[i] <==> user == Some(People[i].code))
  {
    seq(|People|, i requires 0 <= i < |People| => user != Some(People[i].code))
  }

  /** All cards disabled is the lock state of no user. */
  lemma NoUserLocksAll(locks: seq<bool>)
    requires |locks| == |People| && forall i :: 0 <= i < |locks| ==> locks[i]
    ensures locks == LocksFor(None)
  {
  }

  /** Disabling exactly the cards whose code is not `code` is the lock state of user `code`. */
  lemma UserLocksOthers(locks: seq<bool>, code: string)
    requires |locks| == |People|
    requires forall i :: 0 <= i < |locks| ==> locks[i] == (Codes()[i] != code)
    ensures locks == LocksFor(Some(code))
  {
  }

  /** `decideInitialScreen`: a returning user whose saved code is on the
      roster starts at the emergency screen, anyone else at the start screen. */
  function InitialScreen(saved: Option<string>): (id: ScreenId)
    ensures id == EmergencyScreen <==> saved.Some? && IsRosterCode(saved.value)
    ensures id != EmergencyScreen ==> id == StartScreen
  {
    CodesAreFiveUpperLetters();
    if saved.Some? && saved.value != "" && Find(People, saved.value).Some? then EmergencyScreen
    else StartScreen
  }

  /** The navigation rule of the data-goto links (script.js:241-247): "day-1"
      is entered only when no one blocks, and a refused entry leaves the
      screen as it was; every other target is shown unconditionally. The
      model's emergency continue button uses the same rule, which is the
      corrected form of script.js:227-231 (see StaleGate). */
  function Route(current: ScreenId, target: ScreenId, r: ResponseMap): (next: ScreenId)
    ensures target != RoadmapScreen ==> next == target
    ensures target == RoadmapScreen && GateOpen(r) ==> next == RoadmapScreen
    ensures target == RoadmapScreen && !GateOpen(r) ==> next == current
    ensures next == RoadmapScreen && current != RoadmapScreen ==> NotReady(r) == []
  {
    if target == RoadmapScreen && |NotReady(r)| != 0 then current else target
  }

  /** The start-screen `update` rule after the boxes change. */
  function StartButtonAfter(wired: bool, acks: seq<bool>, disabled: bool): bool {
    if wired then !EveryChecked(acks) else disabled
  }

  /** Once wired, the start button is disabled exactly when some box is
      unchecked; an unwired button keeps the markup's state. */
  lemma StartButtonRule(wired: bool, acks: seq<bool>, disabled: bool)
    ensures wired ==> (StartButtonAfter(wired, acks, disabled) <==> exists i :: 0 <= i < |acks| && !acks[i])
    ensures !wired ==> StartButtonAfter(wired, acks, disabled) == disabled
  {
  }

  /** The state after DOMContentLoaded: `setupStartScreen`, `buildPeopleGrid`
      (lock every card, then unlock the saved user's one), `wireNavigation`,
      `decideInitialScreen`. `stored` is the parsed `trip_responses`, None when
      missing or unparsable (read as `{}`, script.js:252-255). When fewer than
      four boxes exist the start screen is not wired and its button keeps the
      markup's `disabled` attribute. */
  function Init(stored: Option<ResponseMap>, saved: Option<string>, acks: seq<bool>, markupDisabled: bool): State {
    var wired := |acks| >= 4;
    State(
      if stored.Some? then stored.value else map[],
      saved,
      InitialScreen(saved),
      LocksFor(saved),
      acks,
      wired,
      StartButtonAfter(wired, acks, markupDisabled))
  }

  /** What each handler does to the state. */
  function Next(s: State, e: Event): State {
    match e
    case Validate(input) =>
      // onValidateCode, script.js:161-179
      (match Lookup(input)
       case None => s.(currentUser := None, locks := LocksFor(None))
       case Some(p) => s.(currentUser := Some(p.code), locks := LocksFor(Some(p.code))))
    case Reset =>
      // resetCurrentUser, script.js:189-195
      s.(currentUser := None, locks := LocksFor(None))
    case Answer(card, yes, ts) =>
      // a disabled button does not fire; an enabled one calls saveResponse
      if card < |People| && card < |s.locks| && !s.locks[card]
      then s.(responses := Save(s.responses, People[card].code, ButtonStatus(yes), ts))
      else s
    case SetAck(box, checked) =>
      if box < |s.acks| then
        var acks := s.acks[box := checked];
        s.(acks := acks, startDisabled := StartButtonAfter(s.ackWired, acks, s.startDisabled))
      else s
    case StartContinue =>
      // only wired when the screen was set up, and a disabled button does not fire
      if s.ackWired && !s.startDisabled then s.(screen := ResponseScreen) else s
    case ResponseNext =>
      s.(screen := EmergencyScreen)
    case EmergencyBack =>
      s.(screen := ResponseScreen)
    case EmergencyContinue =>
      // corrected: the gate at click time; as written see StaleGate.ContinueAsWritten
      s.(screen := Route(s.screen, RoadmapScreen, s.responses))
    case Navigate(target) =>
      s.(screen := Route(s.screen, target, s.responses))
  }

  /** The state after handling `es` in order. */
  function Run(s: State, es: seq<Event>): State
    decreases |es|
  {
    if es == [] then s else Run(Next(s, es[0]), es[1..])
  }

  /** The page's standing invariant: a card is enabled exactly when its code is
      the current user's, and the wired start button is enabled exactly when
      every box is checked. */
  ghost predicate Inv(s: State) {
    && s.locks == LocksFor(s.currentUser)
    && s.ackWired == (|s.acks| >= 4)
    && (s.ackWired ==> s.startDisabled == !EveryChecked(s.acks))
  }

  // ---------------------------------------------------------------------
  // The invariant

  lemma InitEstablishesInv(stored: Option<ResponseMap>, saved: Option<string>, acks: seq<bool>, markupDisabled: bool)
    ensures Inv(Init(stored, saved, acks, markupDisabled))
  {
  }

  lemma StepKeepsInv(s: State, e: Event)
    requires Inv(s)
    ensures Inv(Next(s, e))
  {
  }

  /** Every run of handlers from a state satisfying the invariant keeps it. */
  lemma {:induction false} RunKeepsInv(s: State, es: seq<Event>)
    requires Inv(s)
    ensures Inv(Run(s, es))
    decreases |es|
  {
    if es != [] {
      StepKeepsInv(s, es[0]);
      RunKeepsInv(Next(s, es[0]), es[1..]);
    }
  }

  /** Card lock rule: a card's buttons are enabled iff its code is the current user. */
  lemma CardEnabledIffCurrentUser(s: State, i: nat)
    requires Inv(s) && i < |People|
    ensures !s.locks[i] <==> s.currentUser == Some(People[i].code)
  {
  }

  // ---------------------------------------------------------------------
  // Code validation and reset

  /** An unknown code removes the current user and disables every card, and
      touches neither the responses nor the screen. */
  lemma ValidateUnknownCode(s: State, input: string)
    requires !IsRosterCode(Normalize(input))
    ensures Next(s, Validate(input)).currentUser == None
    ensures forall i :: 0 <= i < |People| ==> Next(s, Validate(input)).locks[i]
    ensures Next(s, Validate(input)).responses == s.responses
    ensures Next(s, Validate(input)).screen == s.screen
  {
  }

  /** A known code becomes the current user and enables exactly one card, the
      one at position k, whose code it is; the responses and the screen stay. */
  lemma ValidateKnownCode(s: State, input: string) returns (k: nat)
    requires IsRosterCode(Normalize(input))
    ensures k < |People| && People[k].code == Normalize(input)
    ensures Next(s, Validate(input)) == s.(currentUser := Some(People[k].code), locks := LocksFor(Some(People[k].code)))
    ensures forall i :: 0 <= i < |People| ==> (LocksFor(Some(People[k].code))[i] <==> i != k)
  {
    var p := Lookup(input).value;
    k :| 0 <= k < |People| && People[k] == p;
    var locks := LocksFor(Some(p.code));
    forall i | 0 <= i < |People|
      ensures locks[i] <==> i != k
    {
      CodesDistinct();
    }
  }

  /** Two inputs that select the same participant (or none) leave the same state. */
  lemma SameLookupSameState(s: State, a: string, b: string)
    requires Lookup(a) == Lookup(b)
    ensures Next(s, Validate(a)) == Next(s, Validate(b))
  {
  }

  /** Validating the same input twice leaves the state of validating it once. */
  lemma ValidateIdempotent(s: State, input: string)
    ensures Next(Next(s, Validate(input)), Validate(input)) == Next(s, Validate(input))
  {
  }

  /** Validating the code that is already current changes nothing. */
  lemma {:induction false} RevalidateCurrentUser(s: State, k: nat)
    requires Inv(s) && k < |People| && s.currentUser == Some(People[k].code)
    ensures Next(s, Validate(People[k].code)) == s
  {
    CodesAreFiveUpperLetters();
    assert People[k].code == [] + People[k].code + [];
    assert CaseVariantOf(People[k].code, People[k].code);
    LookupPaddedVariant(k, [], People[k].code, []);
  }

  /** "nikhi" unlocks the same card as "NIKHI", from any state. */
  lemma LowerCaseValidatesLikeUpperCase(s: State)
    ensures Next(s, Validate("nikhi")) == Next(s, Validate("NIKHI"))
    ensures Next(s, Validate("nikhi")).currentUser == Some("NIKHI")
  {
    LowerCaseInputMatches();
    UpperCaseInputMatches();
    SameLookupSameState(s, "nikhi", "NIKHI");
  }

  /** Reset removes the current user and disables every card, leaving the
      responses and the screen alone. */
  lemma ResetClearsSession(s: State)
    ensures Next(s, Reset).currentUser == None
    ensures forall i :: 0 <= i < |People| ==> Next(s, Reset).locks[i]
    ensures Next(s, Reset).responses == s.responses && Next(s, Reset).screen == s.screen
  {
  }

  // ---------------------------------------------------------------------
  // Responses

  /** A response is written only through the current user's own card. */
  lemma AnswerOnlyByCurrentUser(s: State, card: nat, yes: bool, ts: Timestamp)
    requires Inv(s)
    requires Next(s, Answer(card, yes, ts)).responses != s.responses
    ensures card < |People| && s.currentUser == Some(People[card].code)
  {
  }

  /** The current user's answer is stored under their code and read back as
      given; no other code's record changes. */
  lemma AnswerStoresOwnStatus(s: State, card: nat, yes: bool, ts: Timestamp)
    requires Inv(s) && card < |People| && s.currentUser == Some(People[card].code)
    ensures StatusOf(Next(s, Answer(card, yes, ts)).responses, People[card].code) == ButtonStatus(yes)
    ensures forall code :: code != People[card].code ==>
              StatusOf(Next(s, Answer(card, yes, ts)).responses, code) == StatusOf(s.responses, code)
  {
  }

  /** No handler writes a code that is not on the roster. */
  lemma StepKeepsRosterKeys(s: State, e: Event)
    requires KeysInRoster(s.responses)
    ensures KeysInRoster(Next(s, e).responses)
  {
    if e.Answer? && e.card < |People| {
      assert IsRosterCode(People[e.card].code);
    }
  }

  lemma {:induction false} RunKeepsRosterKeys(s: State, es: seq<Event>)
    requires KeysInRoster(s.responses)
    ensures KeysInRoster(Run(s, es).responses)
    decreases |es|
  {
    if es != [] {
      StepKeepsRosterKeys(s, es[0]);
      RunKeepsRosterKeys(Next(s, es[0]), es[1..]);
    }
  }

  /** The session invariant: a current user, when there is one, is a roster code. */
  predicate UserOnRoster(s: State) {
    s.currentUser.None? || IsRosterCode(s.currentUser.value)
  }

  /** Only the validate and reset buttons touch the current user; every other
      handler leaves `currentUserCode` as it was. */
  lemma OnlySessionEventsChangeUser(s: State, e: Event)
    requires !e.Validate? && !e.Reset?
    ensures Next(s, e).currentUser == s.currentUser
  {
  }

  /** No handler stores a current user that is not on the roster: validation
      stores only a matched roster code and clears the session otherwise. */
  lemma StepKeepsUserOnRoster(s: State, e: Event)
    requires UserOnRoster(s)
    ensures UserOnRoster(Next(s, e))
  {
    if e.Validate? || e.Reset? {
      SessionEventsSetRosterUser(s, e);
    } else {
      OnlySessionEventsChangeUser(s, e);
    }
  }

  /** Validation and reset leave a roster code or no user, whatever was
      stored before, so even a hand-edited saved code is gone after either. */
  lemma SessionEventsSetRosterUser(s: State, e: Event)
    requires e.Validate? || e.Reset?
    ensures UserOnRoster(Next(s, e))
  {
    if e.Validate? {
      var m := Lookup(e.input);
      if m.Some? {
        assert m.value in People;
      }
    }
  }

  lemma {:induction false} RunKeepsUserOnRoster(s: State, es: seq<Event>)
    requires UserOnRoster(s)
    ensures UserOnRoster(Run(s, es))
    decreases |es|
  {
    if es != [] {
      StepKeepsUserOnRoster(s, es[0]);
      RunKeepsUserOnRoster(Next(s, es[0]), es[1..]);
    }
  }

  /** Answering again with the status already stored keeps the gate's answer. */
  lemma ReanswerKeepsBlockers(s: State, card: nat, yes: bool, ts: Timestamp)
    requires card < |People| && StatusOf(s.responses, People[card].code) == ButtonStatus(yes)
    ensures NotReady(Next(s, Answer(card, yes, ts)).responses) == NotReady(s.responses)
  {
    var t := Next(s, Answer(card, yes, ts));
    assert t.responses == s.responses || t.responses == Save(s.responses, People[card].code, ButtonStatus(yes), ts);
    BlockersFollowStatus(People, s.responses, t.responses);
  }

  // ---------------------------------------------------------------------
  // Navigation and the gate

  /** Any step that enters the roadmap from another screen is taken while no
      one blocks, and changes no response on the way. */
  lemma RoadmapEntryNeedsGate(s: State, e: Event)
    requires s.screen != RoadmapScreen && Next(s, e).screen == RoadmapScreen
    ensures GateOpen(s.responses) && NotReady(s.responses) == []
    ensures Next(s, e).responses == s.responses
  {
    match e
    case EmergencyContinue =>
      assert |NotReady(s.responses)| == 0;
    case Navigate(target) =>
      assert |NotReady(s.responses)| == 0;
    case _ =>
  }

  /** A roadmap link and the emergency continue button both move the page
      only through `Route`. */
  lemma RoadmapEventsRoute(s: State)
    ensures Next(s, Navigate(RoadmapScreen)) == s.(screen := Route(s.screen, RoadmapScreen, s.responses))
    ensures Next(s, EmergencyContinue) == s.(screen := Route(s.screen, RoadmapScreen, s.responses))
  {
  }

  /** A refused roadmap entry changes nothing at all. */
  lemma RefusedEntryChangesNothing(s: State)
    requires !GateOpen(s.responses)
    ensures Next(s, Navigate(RoadmapScreen)) == s
    ensures Next(s, EmergencyContinue) == s
  {
    RoadmapEventsRoute(s);
  }

  /** The start screen's continue button leads on only with every box checked. */
  lemma StartContinueNeedsEveryBox(s: State)
    requires Inv(s) && s.screen != ResponseScreen
    requires Next(s, StartContinue).screen == ResponseScreen
    ensures |s.acks| >= 4 && forall i :: 0 <= i < |s.acks| ==> s.acks[i]
  {
    assert Next(s, StartContinue) == if s.ackWired && !s.startDisabled then s.(screen := ResponseScreen) else s;
    assert s.ackWired && !s.startDisabled;
  }

  // ---------------------------------------------------------------------
  // Scenarios

  /** A fresh page with no saved user opens on the start screen with all 17
      participants blocking, and a direct attempt at the roadmap is refused. */
  lemma FreshPageRefusesRoadmap(acks: seq<bool>, markupDisabled: bool)
    ensures Init(None, None, acks, markupDisabled).screen == StartScreen
    ensures NotReady(Init(None, None, acks, markupDisabled).responses) == People
    ensures Next(Init(None, None, acks, markupDisabled), Navigate(RoadmapScreen)).screen == StartScreen
  {
    var s := Init(None, None, acks, markupDisabled);
    assert s.screen == StartScreen;
    assert s.responses == map[];
    NothingStoredBlocksEveryone();
    RefusedEntryChangesNothing(s);
  }

  /** A reload with NIKHI saved skips the start screen: it opens on the
      emergency screen with NIKHI's lock state, only the first card enabled. */
  lemma ReturningUserSkipsStart(stored: Option<ResponseMap>, acks: seq<bool>, markupDisabled: bool)
    ensures Init(stored, Some("NIKHI"), acks, markupDisabled).screen == EmergencyScreen
    ensures Init(stored, Some("NIKHI"), acks, markupDisabled).locks == LocksFor(Some("NIKHI"))
    ensures !Init(stored, Some("NIKHI"), acks, markupDisabled).locks[0]
  {
    assert People[0].code == "NIKHI";
  }

  /** Typing "NIKHI" logs NIKHI in and enables only the first card. */
  lemma ValidateFirstCode(s: State)
    ensures Next(s, Validate("NIKHI")) == s.(currentUser := Some("NIKHI"), locks := LocksFor(Some("NIKHI")))
  {
    UpperCaseInputMatches();
  }

  /** With only the first card enabled, its buttons store NIKHI's answer. */
  lemma AnswerFirstCard(s: State, yes: bool, ts: Timestamp)
    requires s.locks == LocksFor(Some("NIKHI"))
    ensures Next(s, Answer(0, yes, ts)).responses == Save(s.responses, "NIKHI", ButtonStatus(yes), ts)
  {
  }

  /** Starting fresh, NIKHI logs in and answers "Interested": the other 16
      still block, in roster order, and the roadmap stays closed. */
  lemma FirstAnswerLeavesSixteenBlockers(acks: seq<bool>, markupDisabled: bool, ts: Timestamp)
    ensures var s := Next(Next(Init(None, None, acks, markupDisabled), Validate("NIKHI")), Answer(0, true, ts));
            s.currentUser == Some("NIKHI") && NotReady(s.responses) == People[1..] && !GateOpen(s.responses)
  {
    var s0 := Init(None, None, acks, markupDisabled);
    ValidateFirstCode(s0);
    var s1 := Next(s0, Validate("NIKHI"));
    AnswerFirstCard(s1, true, ts);
    var s2 := Next(s1, Answer(0, true, ts));
    assert s2.responses == Save(map[], "NIKHI", Interested, ts);
    forall i | 1 <= i < |People|
      ensures StatusOf(s2.responses, People[i].code) != Interested
    {
      CodesDistinct();
    }
    OnlyFirstInterested(s2.responses);
    assert People[1] in NotReady(s2.responses);
  }

  /** The codes of the roster, as a set. */
  function RosterCodes(): (codes: set<string>)
    ensures forall code :: code in codes <==> IsRosterCode(code)
  {
    set p | p in People :: p.code
  }

  /** The map in which all 17 participants answered "Interested". */
  function AllInterested(ts: Timestamp): (r: ResponseMap)
    ensures forall i :: 0 <= i < |People| ==> StatusOf(r, People[i].code) == Interested
    ensures KeysInRoster(r)
  {
    map code | code in RosterCodes() :: Record(Interested, ts)
  }

  /** With everyone "Interested" the roadmap opens from any screen. */
  lemma EveryoneInterestedOpensRoadmap(s: State)
    requires forall i :: 0 <= i < |People| ==> StatusOf(s.responses, People[i].code) == Interested
    ensures NotReady(s.responses) == []
    ensures Next(s, Navigate(RoadmapScreen)).screen == RoadmapScreen
    ensures Next(s, EmergencyContinue).screen == RoadmapScreen
  {
    NoneBlocking(People, s.responses);
    RoadmapEventsRoute(s);
  }
}
