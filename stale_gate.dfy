/** The emergency screen's continue button as script.js wires it
    (script.js:198-231): every `show("screen-emergency")` runs
    `renderEmergency`, which computes `notReady` once and adds ANOTHER click
    listener to the same button that remembers that `notReady`. A click runs
    all of them, oldest first; each one whose remembered list is empty calls
    `show("day-1")`. So one render in which nobody blocked keeps the roadmap
    open for good, whatever the responses later become. The rest of the model
    (`TripMachine.Next` on `EmergencyContinue`, `TripPage.Page.ClickEmergencyContinue`)
    uses the intended rule instead: the gate on the responses at click time. */
module StaleGate {

  import opened Wrappers
  import opened Roster
  import opened Responses
  import opened Gate
  import opened TripMachine

  /** Handling `e` calls `show("screen-emergency")`, so `renderEmergency` runs. */
  predicate RendersEmergency(e: Event) {
    e.ResponseNext? || (e.Navigate? && e.target == EmergencyScreen)
  }

  /** The `notReady` lists remembered by the continue listeners that handling
      `es` from `s` registers, oldest first. */
  function HandlersRegistered(s: State, es: seq<Event>): seq<seq<Person>>
    decreases |es|
  {
    if es == [] then []
    else (if RendersEmergency(es[0]) then [NotReady(s.responses)] else [])
         + HandlersRegistered(Next(s, es[0]), es[1..])
  }

  /** A click on the continue button as written: every registered listener
      runs in turn; one with an empty list shows "day-1", one with blockers
      only alerts. The roadmap ends up shown iff it already was or SOME
      listener remembered an empty list; otherwise nothing changes. */
  function ContinueAsWritten(handlers: seq<seq<Person>>, current: ScreenId): (next: ScreenId)
    ensures next == RoadmapScreen <==> current == RoadmapScreen || exists k :: 0 <= k < |handlers| && handlers[k] == []
    ensures next != RoadmapScreen ==> next == current
  {
    if handlers == [] then current
    else ContinueAsWritten(handlers[1..], if handlers[0] == [] then RoadmapScreen else current)
  }

  /** How many of the events in `es` show the emergency screen. */
  function RenderCount(es: seq<Event>): nat
    decreases |es|
  {
    if es == [] then 0
    else (if RendersEmergency(es[0]) then 1 else 0) + RenderCount(es[1..])
  }

  /** Every render of the emergency screen adds one continue listener, and
      nothing else adds one. */
  lemma {:induction false} HandlersPerRender(s: State, es: seq<Event>)
    ensures |HandlersRegistered(s, es)| == RenderCount(es)
    decreases |es|
  {
    if es != [] {
      HandlersPerRender(Next(s, es[0]), es[1..]);
    }
  }

  /** One step of `HandlersRegistered`, `RenderCount` and `Run` on a prefix
      of `es` that holds its first event. */
  lemma PrefixStep(s: State, es: seq<Event>, j: nat)
    requires 0 < j <= |es|
    ensures HandlersRegistered(s, es)
            == (if RendersEmergency(es[0]) then [NotReady(s.responses)] else [])
               + HandlersRegistered(Next(s, es[0]), es[1..])
    ensures RenderCount(es[..j]) == (if RendersEmergency(es[0]) then 1 else 0) + RenderCount(es[1..][..j - 1])
    ensures Run(s, es[..j]) == Run(Next(s, es[0]), es[1..][..j - 1])
  {
    var pre := es[..j];
    assert pre[0] == es[0] && pre[1..] == es[1..][..j - 1];
  }

  /** The k-th listener was added by the k-th render, event j of `es`, and
      remembers the `notReady` of the state in which that event was handled. */
  lemma {:induction false} HandlerRemembersItsRender(s: State, es: seq<Event>, k: nat) returns (j: nat)
    requires k < |HandlersRegistered(s, es)|
    ensures j < |es| && RendersEmergency(es[j]) && RenderCount(es[..j]) == k
    ensures HandlersRegistered(s, es)[k] == NotReady(Run(s, es[..j]).responses)
    decreases |es|
  {
    assert es != [];
    PrefixStep(s, es, 1);
    if RendersEmergency(es[0]) && k == 0 {
      j := 0;
      assert es[..0] == [];
    } else {
      var k' := if RendersEmergency(es[0]) then k - 1 else k;
      var j' := HandlerRemembersItsRender(Next(s, es[0]), es[1..], k');
      j := j' + 1;
      PrefixStep(s, es, j);
    }
  }

  /** Conversely, every render adds a listener: the render at event j adds
      listener k, the number of renders before it, and that listener
      remembers the `notReady` of the state in which event j was handled. */
  lemma {:induction false} EveryRenderHasListener(s: State, es: seq<Event>, j: nat) returns (k: nat)
    requires j < |es| && RendersEmergency(es[j])
    ensures k < |HandlersRegistered(s, es)| && RenderCount(es[..j]) == k
    ensures HandlersRegistered(s, es)[k] == NotReady(Run(s, es[..j]).responses)
    decreases |es|
  {
    k := RenderCount(es[..j]);
    var listeners := HandlersRegistered(s, es);
    var state := Run(s, es[..j]);
    if j == 0 {
      assert k < |listeners| && listeners[k] == NotReady(state.responses) by {
        PrefixStep(s, es, 1);
        assert es[..0] == [];
        assert state == s;
      }
    } else {
      assert k < |listeners| && listeners[k] == NotReady(state.responses) by {
        var s1 := Next(s, es[0]);
        var head := if RendersEmergency(es[0]) then [NotReady(s.responses)] else [];
        var rest := HandlersRegistered(s1, es[1..]);
        PrefixStep(s, es, j);
        assert es[1..][j - 1] == es[j];
        var k' := EveryRenderHasListener(s1, es[1..], j - 1);
        assert k == |head| + k';
        assert (head + rest)[k] == rest[k'];
      }
    }
  }

  /** One render with nobody blocking is enough: after any run in which it
      happened, a click on the continue button as written shows "day-1",
      whatever the responses have become since. */
  lemma OneOpenRenderOpensRoadmap(s: State, es: seq<Event>, j: nat, current: ScreenId)
    requires j < |es| && RendersEmergency(es[j]) && NotReady(Run(s, es[..j]).responses) == []
    ensures ContinueAsWritten(HandlersRegistered(s, es), current) == RoadmapScreen
  {
    var k := EveryRenderHasListener(s, es, j);
  }

  /** Going back, answering on the first card and coming forward again
      registers one listener, remembering the blockers after the answer. */
  lemma ReturnRegistersOneHandler(s: State, ts: Timestamp)
    ensures HandlersRegistered(s, [EmergencyBack, Answer(0, false, ts), ResponseNext])
            == [NotReady(Next(Next(s, EmergencyBack), Answer(0, false, ts)).responses)]
  {
    var es := [EmergencyBack, Answer(0, false, ts), ResponseNext];
    var s1 := Next(s, EmergencyBack);
    var s2 := Next(s1, Answer(0, false, ts));
    assert es[1..] == [Answer(0, false, ts), ResponseNext];
    assert es[1..][1..] == [ResponseNext];
    assert [ResponseNext][1..] == [];
    assert HandlersRegistered(s, es) == [] + HandlersRegistered(s1, es[1..]);
    assert HandlersRegistered(s1, es[1..]) == [] + HandlersRegistered(s2, [ResponseNext]);
    assert HandlersRegistered(s2, [ResponseNext]) == [NotReady(s2.responses)] + HandlersRegistered(Next(s2, ResponseNext), []);
  }

  /** Everyone "Interested" except NIKHI, who answered "Not Interested". */
  lemma NikhiHoldsOut(all: ResponseMap, ts: Timestamp)
    requires forall i :: 0 <= i < |People| ==> StatusOf(all, People[i].code) == Interested
    ensures NotReady(Save(all, "NIKHI", NotInterested, ts)) == [People[0]]
    ensures !GateOpen(Save(all, "NIKHI", NotInterested, ts))
  {
    var r := Save(all, "NIKHI", NotInterested, ts);
    assert People[0].code == "NIKHI";
    forall i | 0 <= i < |People| && i != 0
      ensures StatusOf(r, People[i].code) == Interested
    {
      CodesDistinct();
    }
    OneHoldoutBlocks(r, 0);
  }

  /** From the emergency screen with NIKHI logged in and everyone
      "Interested", NIKHI goes back, answers "Not Interested" and comes
      forward: NIKHI now blocks, and the gate refuses the roadmap. */
  lemma NikhiChangesMind(s: State, ts: Timestamp)
    requires s.locks == LocksFor(Some("NIKHI"))
    requires forall i :: 0 <= i < |People| ==> StatusOf(s.responses, People[i].code) == Interested
    ensures var s3 := Next(Next(Next(s, EmergencyBack), Answer(0, false, ts)), ResponseNext);
            && s3.screen == EmergencyScreen
            && NotReady(s3.responses) == [People[0]]
            && Next(s3, EmergencyContinue).screen == EmergencyScreen
  {
    var s1 := Next(s, EmergencyBack);
    assert s1 == s.(screen := ResponseScreen);
    AnswerFirstCard(s1, false, ts);
    var s2 := Next(s1, Answer(0, false, ts));
    var s3 := Next(s2, ResponseNext);
    var r := Save(s.responses, "NIKHI", NotInterested, ts);
    assert s3 == s.(screen := EmergencyScreen, responses := r);
    NikhiHoldsOut(s.responses, ts);
    RefusedEntryChangesNothing(s3);
  }

  /** The counterexample. The page is loaded with a stored map in which
      everyone is "Interested" (StaleHandlerOpensRoadmapWhenAllInterested
      takes AllInterested) and NIKHI saved as the
      user, so it opens on the emergency screen and that render registers a
      listener with no blockers. NIKHI goes back, answers "Not Interested" on
      their (enabled) card and comes forward again: now NIKHI blocks and the
      second render's listener would refuse. A click on continue still opens
      the roadmap through the first listener, while the intended rule keeps
      the page where it is. */
  lemma StaleHandlerOpensRoadmap(all: ResponseMap, acks: seq<bool>, markupDisabled: bool, ts: Timestamp)
    requires forall i :: 0 <= i < |People| ==> StatusOf(all, People[i].code) == Interested
    ensures var s0 := Init(Some(all), Some("NIKHI"), acks, markupDisabled);
            var s3 := Next(Next(Next(s0, EmergencyBack), Answer(0, false, ts)), ResponseNext);
            var handlers := [NotReady(s0.responses)] + HandlersRegistered(s0, [EmergencyBack, Answer(0, false, ts), ResponseNext]);
            && s0.screen == EmergencyScreen
            && s3.screen == EmergencyScreen
            && NotReady(s3.responses) == [People[0]]
            && ContinueAsWritten(handlers, s3.screen) == RoadmapScreen
            && Next(s3, EmergencyContinue).screen == EmergencyScreen
  {
    var s0 := Init(Some(all), Some("NIKHI"), acks, markupDisabled);
    ReturningUserSkipsStart(Some(all), acks, markupDisabled);
    assert GateOpen(s0.responses);
    NikhiChangesMind(s0, ts);
    ReturnRegistersOneHandler(s0, ts);
    var handlers := [NotReady(s0.responses)] + HandlersRegistered(s0, [EmergencyBack, Answer(0, false, ts), ResponseNext]);
    assert handlers[0] == [];
  }

  /** The counterexample on a concrete stored map: every roster code saved as
      "Interested" at time `ts`. */
  lemma StaleHandlerOpensRoadmapWhenAllInterested(acks: seq<bool>, markupDisabled: bool, ts: Timestamp)
    ensures var s0 := Init(Some(AllInterested(ts)), Some("NIKHI"), acks, markupDisabled);
            var s3 := Next(Next(Next(s0, EmergencyBack), Answer(0, false, ts)), ResponseNext);
            var handlers := [NotReady(s0.responses)] + HandlersRegistered(s0, [EmergencyBack, Answer(0, false, ts), ResponseNext]);
            && NotReady(s3.responses) == [People[0]]
            && ContinueAsWritten(handlers, s3.screen) == RoadmapScreen
            && Next(s3, EmergencyContinue).screen == EmergencyScreen
  {
    StaleHandlerOpensRoadmap(AllInterested(ts), acks, markupDisabled, ts);
  }
}
