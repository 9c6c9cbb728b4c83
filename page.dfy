/** The page's state and handlers: the stored responses and current user,
    the active screen, the cards' disabled flags and the start screen's boxes
    and button are fields that the handlers update in place. Every handler is
    proved to move the page exactly as `TripMachine.Next` says, so the lemmas
    of that module hold of every run of the page. One handler departs from
    script.js on purpose: the emergency continue button follows the corrected
    click-time gate; the button as script.js wires it (one listener per render
    of the emergency screen) is `StaleGate.ContinueAsWritten`. */
module TripPage {

  import opened Wrappers
  import opened Roster
  import opened CodeInput
  import opened Responses
  import opened Gate
  import opened TripMachine

  class Page {
    var responses: ResponseMap        // localStorage "trip_responses"
    var currentUser: Option<string>   // localStorage "currentUserCode"
    var screen: ScreenId              // the screen with class "active"
    const locked: array<bool>         // card i (People[i]): its buttons' `disabled`
    const cardCodes: seq<string>      // card i's `data-code`
    const acks: array<bool>           // the ".ack" boxes' `checked`
    var ackWired: bool                // setupStartScreen attached its listeners
    var startDisabled: bool           // "#btn-start-continue".disabled

    /** One card per participant; the cards and the boxes are distinct arrays. */
    ghost predicate Shape()
      reads this
    {
      locked.Length == |People| && locked != acks && cardCodes == Codes()
    }

    /** The page's state as the machine sees it. */
    ghost function Abs(): State
      reads this, locked, acks
    {
      State(responses, currentUser, screen, locked[..], acks[..], ackWired, startDisabled)
    }

    ghost predicate Valid()
      reads this, locked, acks
    {
      Shape() && Inv(Abs())
    }

    /** DOMContentLoaded: `setupStartScreen`, `buildPeopleGrid`,
        `wireNavigation` (nothing to store) and `decideInitialScreen`, on the
        stored responses (None: missing or unparsable), the saved user, the
        boxes' initial states and the continue button's initial `disabled`. */
    constructor (stored: Option<ResponseMap>, saved: Option<string>, initialAcks: seq<bool>, markupDisabled: bool)
      ensures Valid() && fresh(locked) && fresh(acks)
      ensures Abs() == Init(stored, saved, initialAcks, markupDisabled)
    {
      responses := if stored.Some? then stored.value else map[];
      currentUser := saved;
      screen := StartScreen;
      locked := new bool[|People|];
      cardCodes := Codes();
      acks := new bool[|initialAcks|](i requires 0 <= i < |initialAcks| => initialAcks[i]);
      ackWired := false;
      startDisabled := markupDisabled;
      new;
      assert acks[..] == initialAcks;
      SetupStartScreen();
      BuildPeopleGrid();
      DecideInitialScreen();
    }

    /** `show(id)`: `id` becomes the active screen. */
    method Show(id: ScreenId)
      modifies this`screen
      ensures screen == id
    {
      screen := id;
    }

    /** `decideInitialScreen` (script.js:49-57). */
    method DecideInitialScreen()
      modifies this`screen
      ensures screen == InitialScreen(currentUser)
    {
      var saved := currentUser;
      if saved.Some? && saved.value != "" && Find(People, saved.value).Some? {
        Show(EmergencyScreen);
      } else {
        Show(StartScreen);
      }
    }

    /** `setupStartScreen` (script.js:60-75): with fewer than four boxes
        nothing is wired; otherwise the button's state is updated once. */
    method SetupStartScreen()
      requires Shape() && !ackWired
      modifies this`ackWired, this`startDisabled
      ensures ackWired == (acks.Length >= 4)
      ensures startDisabled == StartButtonAfter(ackWired, acks[..], old(startDisabled))
    {
      if acks.Length < 4 {
        return;
      }
      ackWired := true;
      UpdateStartButton();
    }

    /** The `update` rule (script.js:66-68). */
    method UpdateStartButton()
      modifies this`startDisabled
      ensures startDisabled == !EveryChecked(acks[..])
    {
      startDisabled := !EveryChecked(acks[..]);
    }

    /** `buildPeopleGrid`'s locking (script.js:136-138): lock every card,
        then unlock the saved user's card when one is saved. */
    method BuildPeopleGrid()
      requires Shape()
      modifies locked
      ensures locked[..] == LocksFor(currentUser)
    {
      LockAllCards(true);
      if currentUser.Some? && currentUser.value != "" {
        UnlockCard(currentUser.value);
      }
      CodesAreFiveUpperLetters();
    }

    /** `lockAllCards(lock)` (script.js:149-153). */
    method LockAllCards(lock: bool)
      requires Shape()
      modifies locked
      ensures forall i :: 0 <= i < locked.Length ==> locked[i] == lock
      ensures lock ==> locked[..] == LocksFor(None)
    {
      var i := 0;
      while i < locked.Length
        invariant 0 <= i <= locked.Length
        invariant forall k :: 0 <= k < i ==> locked[k] == lock
      {
        locked[i] := lock;
        i := i + 1;
      }
      if lock {
        NoUserLocksAll(locked[..]);
      }
    }

    /** `unlockCard(code)` (script.js:154-159): exactly the cards whose code
        differs from `code` are disabled. */
    method UnlockCard(code: string)
      requires Shape()
      modifies locked
      ensures forall i :: 0 <= i < locked.Length ==> locked[i] == (cardCodes[i] != code)
      ensures locked[..] == LocksFor(Some(code))
    {
      var i := 0;
      while i < locked.Length
        invariant 0 <= i <= locked.Length
        invariant forall k :: 0 <= k < i ==> locked[k] == (cardCodes[k] != code)
      {
        locked[i] := cardCodes[i] != code;
        i := i + 1;
      }
      UserLocksOthers(locked[..], code);
    }

    /** `onValidateCode` (script.js:161-179); returns the match the feedback
        text greets. */
    method OnValidateCode(input: string) returns (found: Option<Person>)
      requires Valid()
      modifies this, locked
      ensures Valid() && Abs() == Next(old(Abs()), Validate(input))
      ensures found == Lookup(input)
    {
      var code := Normalize(input);
      found := Find(People, code);
      if found.None? {
        currentUser := None;
        LockAllCards(true);
        return;
      }
      currentUser := Some(code);
      UnlockCard(code);
    }

    /** `saveResponse` (script.js:181-184): last write wins on `code`. */
    method SaveResponse(code: string, status: Status, ts: Timestamp)
      modifies this`responses
      ensures responses == Save(old(responses), code, status, ts)
    {
      responses := responses[code := Record(status, ts)];
    }

    /** A click on card `card`'s Interested (yes) or Not Interested button
        (script.js:122-123); a disabled button does not fire. */
    method ClickAnswer(card: nat, yes: bool, ts: Timestamp)
      requires Valid() && card < |People|
      modifies this`responses
      ensures Valid() && Abs() == Next(old(Abs()), Answer(card, yes, ts))
    {
      if !locked[card] {
        SaveResponse(People[card].code, ButtonStatus(yes), ts);
      }
    }

    /** `resetCurrentUser` (script.js:189-195). */
    method ResetCurrentUser()
      requires Valid()
      modifies this, locked
      ensures Valid() && Abs() == Next(old(Abs()), Reset)
    {
      currentUser := None;
      LockAllCards(true);
    }

    /** An acknowledgement box changes (its "change"/"input" listeners). */
    method ToggleAck(box: nat, checked: bool)
      requires Valid() && box < acks.Length
      modifies this`startDisabled, acks
      ensures Valid() && Abs() == Next(old(Abs()), Event.SetAck(box, checked))
    {
      acks[box] := checked;
      if ackWired {
        UpdateStartButton();
      }
    }

    /** The start screen's continue button (script.js:77-80). */
    method ClickStartContinue()
      requires Valid()
      modifies this`screen
      ensures Valid() && Abs() == Next(old(Abs()), StartContinue)
    {
      if ackWired && !startDisabled {
        Show(ResponseScreen);
      }
    }

    /** The response screen's next button (script.js:145). */
    method ClickResponseNext()
      requires Valid()
      modifies this`screen
      ensures Valid() && Abs() == Next(old(Abs()), ResponseNext)
    {
      Show(EmergencyScreen);
    }

    /** The emergency screen's back button (script.js:227). */
    method ClickEmergencyBack()
      requires Valid()
      modifies this`screen
      ensures Valid() && Abs() == Next(old(Abs()), EmergencyBack)
    {
      Show(ResponseScreen);
    }

    /** The emergency screen's continue button, corrected: the gate of
        script.js:229 evaluated on the responses as they are when it is
        clicked, by a single listener. As written, script.js:227-231 adds one
        listener per render, each remembering its own render's `notReady`;
        that click is `StaleGate.ContinueAsWritten`. */
    method ClickEmergencyContinue()
      requires Valid()
      modifies this`screen
      ensures Valid() && Abs() == Next(old(Abs()), EmergencyContinue)
    {
      var notReady := NotReady(responses);
      if |notReady| != 0 {
        return;
      }
      Show(RoadmapScreen);
    }

    /** The `data-goto` click handler of `wireNavigation` (script.js:235-249). */
    method FollowLink(target: ScreenId)
      requires Valid()
      modifies this`screen
      ensures Valid() && Abs() == Next(old(Abs()), Navigate(target))
    {
      if target == RoadmapScreen {
        var notReady := NotReady(responses);
        if |notReady| != 0 {
          return;
        }
      }
      Show(target);
    }
  }
}
