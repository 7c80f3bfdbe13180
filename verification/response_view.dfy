/**
 * The assistant view's response state with the DOM stripped away: the list
 * of responses, the index of the one shown, the counter under it, the
 * previous/next navigation, and the saved-responses list with its
 * duplicate check.
 */
module ResponseView {
  import opened Wrappers
  import opened JsText

  /** One entry of `savedResponses`: `{ response, timestamp, profile }`. */
  datatype SavedResponse = SavedResponse(response: string, timestamp: string, profile: string)

  /** `responses`, `currentResponseIndex`, `selectedProfile` and `savedResponses`. */
  datatype View = View(responses: seq<string>, index: int, profile: string, saved: seq<SavedResponse>)

  /** The six entries of the object `getProfileNames()` returns. */
  function OwnProfileName(profile: string): Option<string> {
    if profile == "interview" then Some("Job Interview")
    else if profile == "sales" then Some("Sales Call")
    else if profile == "meeting" then Some("Business Meeting")
    else if profile == "presentation" then Some("Presentation")
    else if profile == "negotiation" then Some("Negotiation")
    else if profile == "exam" then Some("Exam Assistant")
    else None
  }

  /** The methods every object literal inherits from `Object.prototype`. */
  const InheritedMethods: set<string> :=
    {"__defineGetter__", "__defineSetter__", "hasOwnProperty", "__lookupGetter__", "__lookupSetter__",
     "isPrototypeOf", "propertyIsEnumerable", "toString", "valueOf", "toLocaleString"}

  /**
   * `profileNames[profile]`: a plain-object lookup, so besides the six own
   * entries it also finds what the object inherits. Inside a template literal
   * a built-in method renders as its source text, `constructor` as the
   * `Object` function and `__proto__` as `Object.prototype`. Anything else is
   * `undefined`.
   */
  function ProfileName(profile: string): (r: Option<string>)
    ensures OwnProfileName(profile).Some? ==> r == OwnProfileName(profile)
    ensures r.None? <==> OwnProfileName(profile).None? && profile !in InheritedMethods
                         && profile != "constructor" && profile != "__proto__"
    ensures r.Some? ==> r.value != []
  {
    if OwnProfileName(profile).Some? then OwnProfileName(profile)
    else if profile in InheritedMethods then Some("function " + profile + "() { [native code] }")
    else if profile == "constructor" then Some("function Object() { [native code] }")
    else if profile == "__proto__" then Some("[object Object]")
    else None
  }

  /** The greeting shown when there is no response: `profileNames[profile] || 'session'`. */
  function WelcomeMessage(profile: string): string {
    "Hey, Im listening to your " + (if Truthy(ProfileName(profile)) then ProfileName(profile).value else "session") + "?"
  }

  /**
   * `getCurrentResponse()`: the response at the index when there are
   * responses and the index is not negative, the greeting otherwise.
   * An index past the end reads `undefined`, which is `None` here.
   */
  function CurrentResponse(v: View): (r: Option<string>)
    ensures 0 <= v.index < |v.responses| ==> r == Some(v.responses[v.index])
    ensures |v.responses| == 0 || v.index < 0 ==> r == Some(WelcomeMessage(v.profile))
    ensures 0 < |v.responses| <= v.index ==> r == None
  {
    if |v.responses| > 0 && v.index >= 0 then
      if v.index < |v.responses| then Some(v.responses[v.index]) else None
    else Some(WelcomeMessage(v.profile))
  }

  /**
   * What the greeting names: the lookup's text when it finds one, and
   * 'session' exactly when it finds nothing.
   */
  lemma WelcomeNamesProfile(profile: string)
    ensures var name := if ProfileName(profile).Some? then ProfileName(profile).value else "session";
            && WelcomeMessage(profile) == "Hey, Im listening to your " + name + "?"
            && (name == "session" <==> ProfileName(profile).None?)
  {
  }

  /**
   * The lookup on particular keys: the six selectable profiles give their
   * display names, while `constructor`, `__proto__` and `toString`, which the
   * object inherits, give what a template literal renders for them.
   */
  lemma ProfileNamesOfKeys()
    ensures ProfileName("interview") == Some("Job Interview")
    ensures ProfileName("sales") == Some("Sales Call")
    ensures ProfileName("meeting") == Some("Business Meeting")
    ensures ProfileName("presentation") == Some("Presentation")
    ensures ProfileName("negotiation") == Some("Negotiation")
    ensures ProfileName("exam") == Some("Exam Assistant")
    ensures ProfileName("constructor") == Some("function Object() { [native code] }")
    ensures ProfileName("__proto__") == Some("[object Object]")
    ensures ProfileName("toString") == Some("function toString() { [native code] }")
    ensures ProfileName("default") == None
  {
    assert "toString" in InheritedMethods;
    assert "function " + "toString" + "() { [native code] }" == "function toString() { [native code] }";
  }

  /**
   * `getResponseCounter()`: empty without responses, otherwise
   * "position/count". For an index from -1 up, the text reads back as the
   * 1-based position, a slash, and the number of responses.
   */
  function ResponseCounter(v: View): (r: string)
    ensures r == [] <==> |v.responses| == 0
    ensures |v.responses| > 0 && v.index >= -1 ==>
              var k := |NatToDecimal(v.index + 1)|;
              && k < |r| && r[k] == '/'
              && IsDigits(r[..k]) && DecimalValue(r[..k]) == v.index + 1
              && IsDigits(r[k + 1..]) && DecimalValue(r[k + 1..]) == |v.responses|
              && IsCanonicalDecimal(r[..k]) && IsCanonicalDecimal(r[k + 1..])
  {
    if |v.responses| > 0 then
      var r := IntToDecimal(v.index + 1) + "/" + NatToDecimal(|v.responses|);
      assert r != [];
      assert v.index >= -1 ==> var k := |NatToDecimal(v.index + 1)|;
                               && k < |r| && r[k] == '/'
                               && IsDigits(r[..k]) && DecimalValue(r[..k]) == v.index + 1
                               && IsDigits(r[k + 1..]) && DecimalValue(r[k + 1..]) == |v.responses|
                               && IsCanonicalDecimal(r[..k]) && IsCanonicalDecimal(r[k + 1..]) by {
        if v.index >= -1 {
          var k := |NatToDecimal(v.index + 1)|;
          assert r[..k] == NatToDecimal(v.index + 1);
          assert r[k + 1..] == NatToDecimal(|v.responses|);
          DecimalRoundTrip(v.index + 1);
          DecimalRoundTrip(|v.responses|);
        }
      }
      r
    else []
  }

  /** The view after a navigation and the indices of the 'response-index-changed' events it dispatched. */
  datatype Navigated = Navigated(view: View, events: seq<int>)

  /** `navigateToPreviousResponse()`: step back one response unless at the first. */
  function NavigatePrevious(v: View): (r: Navigated)
    ensures v.index > 0 <==> r.events != []
    ensures v.index > 0 ==> r.view == v.(index := v.index - 1) && r.events == [r.view.index]
    ensures v.index <= 0 ==> r.view == v
  {
    if v.index > 0 then Navigated(v.(index := v.index - 1), [v.index - 1]) else Navigated(v, [])
  }

  /** `navigateToNextResponse()`: step forward one response unless at the last. */
  function NavigateNext(v: View): (r: Navigated)
    ensures v.index < |v.responses| - 1 <==> r.events != []
    ensures v.index < |v.responses| - 1 ==> r.view == v.(index := v.index + 1) && r.events == [r.view.index]
    ensures v.index >= |v.responses| - 1 ==> r.view == v
  {
    if v.index < |v.responses| - 1 then Navigated(v.(index := v.index + 1), [v.index + 1]) else Navigated(v, [])
  }

  datatype Nav = Previous | Next

  /** A sequence of button presses, handled in order. */
  function Navigate(v: View, navs: seq<Nav>): Navigated
    decreases |navs|
  {
    if navs == [] then Navigated(v, [])
    else
      var first := if navs[0] == Previous then NavigatePrevious(v) else NavigateNext(v);
      var rest := Navigate(first.view, navs[1..]);
      Navigated(rest.view, first.events + rest.events)
  }

  /**
   * Navigation only moves the index: from a valid index any sequence of
   * presses keeps it valid, never touches the responses, the profile or the
   * saved list, dispatches at most one event per press, and the last event
   * names the index the view ends on.
   */
  lemma {:induction false} NavigationStaysInRange(v: View, navs: seq<Nav>)
    requires 0 <= v.index < |v.responses|
    ensures var r := Navigate(v, navs);
            && 0 <= r.view.index < |r.view.responses|
            && r.view == v.(index := r.view.index)
            && |r.events| <= |navs|
            && (r.events != [] ==> r.events[|r.events| - 1] == r.view.index)
            && (r.events == [] ==> r.view == v)
    decreases |navs|
  {
    if navs != [] {
      var first := if navs[0] == Previous then NavigatePrevious(v) else NavigateNext(v);
      NavigationStaysInRange(first.view, navs[1..]);
    }
  }

  /** `savedResponses.some(saved => saved.response === current)`, as the loop it is. */
  function AnySaved(saved: seq<SavedResponse>, current: Option<string>): (found: bool)
    ensures found <==> exists i :: 0 <= i < |saved| && Some(saved[i].response) == current
    decreases |saved|
  {
    if saved == [] then false
    else if Some(saved[0].response) == current then true
    else
      var found := AnySaved(saved[1..], current);
      assert found ==> exists i :: 0 <= i < |saved| && Some(saved[i].response) == current by {
        if found {
          var i :| 0 <= i < |saved[1..]| && Some(saved[1..][i].response) == current;
          assert saved[i + 1] == saved[1..][i];
        }
      }
      found
  }

  /** `isResponseSaved()`: some saved entry has the shown response's text. */
  function IsResponseSaved(v: View): (r: bool)
    ensures r <==> exists i :: 0 <= i < |v.saved| && Some(v.saved[i].response) == CurrentResponse(v)
  {
    AnySaved(v.saved, CurrentResponse(v))
  }

  /**
   * `saveCurrentResponse()`: append `{ response, timestamp, profile }` for
   * the shown response (the greeting included) unless it is empty, undefined
   * or already saved. Existing entries are never changed.
   */
  function SaveCurrentResponse(v: View, timestamp: string): (r: View)
    ensures r == v.(saved := r.saved)
    ensures |v.saved| <= |r.saved| <= |v.saved| + 1
    ensures r.saved[..|v.saved|] == v.saved
    ensures |r.saved| == |v.saved| + 1 <==>
              Truthy(CurrentResponse(v)) && forall i :: 0 <= i < |v.saved| ==> Some(v.saved[i].response) != CurrentResponse(v)
    ensures |r.saved| == |v.saved| + 1 ==>
              r.saved[|v.saved|] == SavedResponse(CurrentResponse(v).value, timestamp, v.profile)
    ensures Truthy(CurrentResponse(v)) ==> IsResponseSaved(r)
  {
    var current := CurrentResponse(v);
    if Truthy(current) && !IsResponseSaved(v) then
      var r := v.(saved := v.saved + [SavedResponse(current.value, timestamp, v.profile)]);
      assert r.saved[|v.saved|].response == current.value;
      r
    else v
  }

  /** Saving twice in a row adds at most one entry. */
  lemma SaveTwiceAddsAtMostOne(v: View, t1: string, t2: string)
    ensures var once := SaveCurrentResponse(v, t1);
            SaveCurrentResponse(once, t2) == once
  {
    var once := SaveCurrentResponse(v, t1);
    assert CurrentResponse(once) == CurrentResponse(v);
  }

  /** No two saved entries share a response text. */
  predicate DistinctSaved(saved: seq<SavedResponse>) {
    forall i, j :: 0 <= i < j < |saved| ==> saved[i].response != saved[j].response
  }

  /** Saving never introduces a duplicate. */
  lemma SaveKeepsDistinct(v: View, timestamp: string)
    requires DistinctSaved(v.saved)
    ensures DistinctSaved(SaveCurrentResponse(v, timestamp).saved)
  {
  }
}
