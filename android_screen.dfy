/**
 * The Android screen: UiAutomator selector builders and the home key.
 * Every builder resolves its selector with `$`, so each returns the single
 * `Find` it issues and the element handle for that selector.
 */
module AndroidScreen {
  import opened DriverTrace
  import opened Locators

  /** Android's KEYCODE_HOME. */
  const HomeKeyCode := 3

  function GetElementByUiAutomator(selector: string): (r: Run<Element>)
    ensures Resolved(r)
    ensures Classify(r.result.value.selector) == UiAutomator(selector)
  {
    ClassifyUiAutomator(selector);
    Resolve(UiAutomatorPrefix + selector)
  }

  /** `android=new UiSelector().resourceId("<resourceId>")` */
  function GetElementByResourceId(resourceId: string): (r: Run<Element>)
    ensures Resolved(r)
    ensures var s := Classify(r.result.value.selector);
      s.UiAutomator? && ParseUiSelector(s.expression) == Some((ResourceId, resourceId))
  {
    UiSelectorQuery(ResourceId, resourceId);
    Resolve(UiAutomatorPrefix + CallPrefix(ResourceId) + resourceId + CallSuffix)
  }

  /** `android=new UiSelector().text("<text>")` */
  function GetElementByText(text: string): (r: Run<Element>)
    ensures Resolved(r)
    ensures var s := Classify(r.result.value.selector);
      s.UiAutomator? && ParseUiSelector(s.expression) == Some((Text, text))
  {
    UiSelectorQuery(Text, text);
    Resolve(UiAutomatorPrefix + CallPrefix(Text) + text + CallSuffix)
  }

  /** `android=new UiSelector().description("<contentDesc>")` */
  function GetElementByContentDesc(contentDesc: string): (r: Run<Element>)
    ensures Resolved(r)
    ensures var s := Classify(r.result.value.selector);
      s.UiAutomator? && ParseUiSelector(s.expression) == Some((Description, contentDesc))
  {
    UiSelectorQuery(Description, contentDesc);
    Resolve(UiAutomatorPrefix + CallPrefix(Description) + contentDesc + CallSuffix)
  }

  /** `android=new UiSelector().<attribute>("<value>")` is a UiAutomator
      selector whose call reads back as the same attribute and the same value,
      whatever characters the value holds (nothing is escaped). */
  lemma UiSelectorQuery(a: UiAttribute, value: string)
    ensures var s := UiAutomatorPrefix + CallPrefix(a) + value + CallSuffix;
      Classify(s) == UiAutomator(CallPrefix(a) + value + CallSuffix) &&
      ParseUiSelector(CallPrefix(a) + value + CallSuffix) == Some((a, value))
  {
    var e := CallPrefix(a) + value + CallSuffix;
    assert UiAutomatorPrefix + CallPrefix(a) + value + CallSuffix == UiAutomatorPrefix + e;
    PrefixRest(UiAutomatorPrefix, e);
    ParseCall(a, value);
  }

  function PressHome(d: Driver, h: seq<Command>): (r: Run<()>)
    ensures r.trace == [KeyCode(3)] && r.result == d.ack(h, KeyCode(3))
  {
    Issue(d, h, KeyCode(HomeKeyCode))
  }
}
