/**
 * The home screen: XPath selectors on Android, accessibility ids on iOS,
 * picked by the session's platform flag, and the flows on them.
 */
module HomeScreen {
  import opened DriverTrace
  import opened Locators
  import opened BaseScreen

  const LoadTimeout := 15000

  /** Every Android selector names a widget class under this path. */
  const WidgetPrefix := "//android.widget."

  datatype Selectors = Selectors(welcomeMessage: string, logoutButton: string, profileButton: string, settingsButton: string)

  /** What a widget XPath `//android.widget.<widget>[@<attribute>="<value>"]`
      matches on: a widget class and one attribute with its value. */
  datatype WidgetMatch = WidgetMatch(widget: string, attribute: string, value: string)

  /** The XPath `//android.widget.<widget>[@<attribute>="<value>"]`. */
  function WidgetXPathFor(m: WidgetMatch): string {
    WidgetPrefix + (m.widget + ['['] + (['@'] + (m.attribute + ['='] + (['"'] + (m.value + ['"'] + "]")))))
  }

  /** `s` cut at its first `c`: what comes before it and what comes after. */
  function SplitAt(s: string, c: char): (r: Option<(string, string)>)
    ensures r.Some? ==> s == r.value.0 + [c] + r.value.1 && c !in r.value.0
    ensures r.None? ==> c !in s
  {
    if |s| == 0 then None
    else if s[0] == c then Some(([], s[1..]))
    else match SplitAt(s[1..], c)
      case None => None
      case Some((before, after)) => Some(([s[0]] + before, after))
  }

  /** Reads a widget XPath back into the widget, attribute and value it
      matches; anything of another shape reads as `None`. */
  function WidgetQuery(s: string): Option<WidgetMatch> {
    if !(WidgetPrefix <= s) then None
    else match SplitAt(s[|WidgetPrefix|..], '[')
      case None => None
      case Some((widget, r1)) =>
        if |r1| == 0 || r1[0] != '@' then None
        else match SplitAt(r1[1..], '=')
          case None => None
          case Some((attribute, r2)) =>
            if |r2| == 0 || r2[0] != '"' then None
            else match SplitAt(r2[1..], '"')
              case None => None
              case Some((value, r3)) =>
                if r3 == "]" then Some(WidgetMatch(widget, attribute, value)) else None
  }

  /** Cutting at the first `c` finds the `c` that no character before it equals. */
  lemma {:induction false} SplitAtJoin(a: string, c: char, b: string)
    requires c !in a
    ensures SplitAt(a + [c] + b, c) == Some((a, b))
  {
    if |a| == 0 {
      assert a + [c] + b == [c] + b;
    } else {
      assert (a + [c] + b)[1..] == a[1..] + [c] + b;
      SplitAtJoin(a[1..], c, b);
      assert [a[0]] + a[1..] == a;
    }
  }

  /** Every widget XPath whose parts hold no delimiter of their own reads back
      as the widget, attribute and value it was built from. */
  lemma WidgetQueryReadsBack(m: WidgetMatch)
    requires '[' !in m.widget && '=' !in m.attribute && '"' !in m.value
    ensures WidgetQuery(WidgetXPathFor(m)) == Some(m)
  {
    var r2 := ['"'] + (m.value + ['"'] + "]");
    var r1 := ['@'] + (m.attribute + ['='] + r2);
    PrefixRest(WidgetPrefix, m.widget + ['['] + r1);
    SplitAtJoin(m.widget, '[', r1);
    assert r1[1..] == m.attribute + ['='] + r2;
    SplitAtJoin(m.attribute, '=', r2);
    assert r2[1..] == m.value + ['"'] + "]";
    SplitAtJoin(m.value, '"', "]");
  }

  const WelcomeWidget := WidgetMatch("TextView", "resource-id", "welcome-message")
  const LogoutWidget := WidgetMatch("Button", "text", "Logout")
  const ProfileWidget := WidgetMatch("Button", "resource-id", "profile-button")
  const SettingsWidget := WidgetMatch("Button", "resource-id", "settings-button")

  /** The selectors `//android.widget.TextView[@resource-id="welcome-message"]`,
      `//android.widget.Button[@text="Logout"]`,
      `//android.widget.Button[@resource-id="profile-button"]` and
      `//android.widget.Button[@resource-id="settings-button"]`: each key reads
      back as its own widget, attribute and value, so the four differ, and each
      is an XPath on an Android widget. */
  function AndroidSelectors(): (s: Selectors)
    ensures WidgetQuery(s.welcomeMessage) == Some(WelcomeWidget)
    ensures WidgetQuery(s.logoutButton) == Some(LogoutWidget)
    ensures WidgetQuery(s.profileButton) == Some(ProfileWidget)
    ensures WidgetQuery(s.settingsButton) == Some(SettingsWidget)
    ensures AreWidgetXPaths(s) && Distinct(s)
  {
    WelcomeReadsBack();
    LogoutReadsBack();
    ProfileReadsBack();
    SettingsReadsBack();
    WidgetsDiffer();
    WidgetXPath(WelcomeWidget);
    WidgetXPath(LogoutWidget);
    WidgetXPath(ProfileWidget);
    WidgetXPath(SettingsWidget);
    Selectors(WidgetXPathFor(WelcomeWidget), WidgetXPathFor(LogoutWidget),
              WidgetXPathFor(ProfileWidget), WidgetXPathFor(SettingsWidget))
  }

  lemma WelcomeReadsBack()
    ensures WidgetQuery(WidgetXPathFor(WelcomeWidget)) == Some(WelcomeWidget)
  {
    WidgetQueryReadsBack(WelcomeWidget);
  }

  lemma LogoutReadsBack()
    ensures WidgetQuery(WidgetXPathFor(LogoutWidget)) == Some(LogoutWidget)
  {
    WidgetQueryReadsBack(LogoutWidget);
  }

  lemma ProfileReadsBack()
    ensures WidgetQuery(WidgetXPathFor(ProfileWidget)) == Some(ProfileWidget)
  {
    WidgetQueryReadsBack(ProfileWidget);
  }

  lemma SettingsReadsBack()
    ensures WidgetQuery(WidgetXPathFor(SettingsWidget)) == Some(SettingsWidget)
  {
    WidgetQueryReadsBack(SettingsWidget);
  }

  /** The four matches differ, in the widget, the attribute or the value. */
  lemma WidgetsDiffer()
    ensures WelcomeWidget != LogoutWidget && WelcomeWidget != ProfileWidget && WelcomeWidget != SettingsWidget
    ensures LogoutWidget != ProfileWidget && LogoutWidget != SettingsWidget && ProfileWidget != SettingsWidget
  {
    assert |WelcomeWidget.widget| != |LogoutWidget.widget|;
    assert |LogoutWidget.attribute| != |ProfileWidget.attribute|;
    assert |ProfileWidget.value| != |SettingsWidget.value|;
  }

  /** The selectors `~welcome-message`, `~logout-button`, `~profile-button` and
      `~settings-button`: four different accessibility ids. */
  function IOSSelectors(): (s: Selectors)
    ensures AreAccessibilityIds(s) && Distinct(s)
  {
    var welcome, logout, profile, settings := "welcome-message", "logout-button", "profile-button", "settings-button";
    ClassifyAccessibilityId(welcome);
    ClassifyAccessibilityId(logout);
    ClassifyAccessibilityId(profile);
    ClassifyAccessibilityId(settings);
    AfterPrefix(AccessibilityIdPrefix, welcome, logout, 0);
    AfterPrefix(AccessibilityIdPrefix, welcome, profile, 0);
    AfterPrefix(AccessibilityIdPrefix, welcome, settings, 0);
    AfterPrefix(AccessibilityIdPrefix, logout, profile, 0);
    AfterPrefix(AccessibilityIdPrefix, logout, settings, 0);
    AfterPrefix(AccessibilityIdPrefix, profile, settings, 0);
    Selectors(AccessibilityIdPrefix + welcome, AccessibilityIdPrefix + logout,
              AccessibilityIdPrefix + profile, AccessibilityIdPrefix + settings)
  }

  /** Each selector is an XPath on an Android widget. */
  predicate AreWidgetXPaths(s: Selectors) {
    && WidgetPrefix <= s.welcomeMessage && Classify(s.welcomeMessage) == XPath(s.welcomeMessage)
    && WidgetPrefix <= s.logoutButton && Classify(s.logoutButton) == XPath(s.logoutButton)
    && WidgetPrefix <= s.profileButton && Classify(s.profileButton) == XPath(s.profileButton)
    && WidgetPrefix <= s.settingsButton && Classify(s.settingsButton) == XPath(s.settingsButton)
  }

  /** Each selector is an accessibility id, and which one. */
  predicate AreAccessibilityIds(s: Selectors) {
    && Classify(s.welcomeMessage) == AccessibilityId("welcome-message")
    && Classify(s.logoutButton) == AccessibilityId("logout-button")
    && Classify(s.profileButton) == AccessibilityId("profile-button")
    && Classify(s.settingsButton) == AccessibilityId("settings-button")
  }

  /** The four keys name four different elements. */
  predicate Distinct(s: Selectors) {
    && s.welcomeMessage != s.logoutButton && s.welcomeMessage != s.profileButton
    && s.welcomeMessage != s.settingsButton && s.logoutButton != s.profileButton
    && s.logoutButton != s.settingsButton && s.profileButton != s.settingsButton
  }

  lemma WidgetXPath(m: WidgetMatch)
    ensures WidgetPrefix <= WidgetXPathFor(m)
    ensures Classify(WidgetXPathFor(m)) == XPath(WidgetXPathFor(m))
  {
    var rest := m.widget + ['['] + (['@'] + (m.attribute + ['='] + (['"'] + (m.value + ['"'] + "]"))));
    PrefixRest(WidgetPrefix, rest);
    assert WidgetXPathFor(m)[0] == WidgetPrefix[0];
    ClassifyXPath(WidgetXPathFor(m));
  }

  /** Two selectors behind the same prefix differ once what follows it differs. */
  lemma AfterPrefix(prefix: string, a: string, b: string, i: nat)
    requires i < |a| && i < |b| && a[i] != b[i]
    ensures prefix + a != prefix + b
  {
    assert (prefix + a)[|prefix| + i] == a[i];
    assert (prefix + b)[|prefix| + i] == b[i];
  }

  /** The platform screen the flows delegate to; both inherit every operation
      used here from the base screen unchanged. */
  function Screen(d: Driver): (p: Platform)
    ensures (p == AndroidPlatform) <==> d.isAndroid
    ensures (p == IOSPlatform) <==> !d.isAndroid
  {
    PlatformOf(d)
  }

  /** The table picked by the same flag as `Screen`: the Android table exactly
      on Android and the iOS table exactly on iOS. The flag alone decides the
      locator strategy of every selector, XPath on Android and accessibility
      id on iOS, and the four keys stay four different elements. */
  function CurrentSelectors(d: Driver): (s: Selectors)
    ensures (Screen(d) == AndroidPlatform) <==> (s == AndroidSelectors())
    ensures (Screen(d) == IOSPlatform) <==> (s == IOSSelectors())
    ensures && (Classify(s.welcomeMessage).XPath? <==> d.isAndroid)
            && (Classify(s.logoutButton).XPath? <==> d.isAndroid)
            && (Classify(s.profileButton).XPath? <==> d.isAndroid)
            && (Classify(s.settingsButton).XPath? <==> d.isAndroid)
    ensures Distinct(s)
  {
    assert AndroidSelectors().welcomeMessage[0] == '/';
    assert IOSSelectors().welcomeMessage[0] == '~';
    if Screen(d) == AndroidPlatform then AndroidSelectors() else IOSSelectors()
  }

  /** `$(selector)` on the current table; the strategy follows the platform. */
  function WelcomeMessage(d: Driver): (r: Run<Element>)
    ensures Resolved(r) && r.result.value.selector == CurrentSelectors(d).welcomeMessage
    ensures Classify(r.result.value.selector).XPath? <==> d.isAndroid
  {
    Resolve(CurrentSelectors(d).welcomeMessage)
  }

  function LogoutButton(d: Driver): (r: Run<Element>)
    ensures Resolved(r) && r.result.value.selector == CurrentSelectors(d).logoutButton
    ensures Classify(r.result.value.selector).XPath? <==> d.isAndroid
  {
    Resolve(CurrentSelectors(d).logoutButton)
  }

  function ProfileButton(d: Driver): (r: Run<Element>)
    ensures Resolved(r) && r.result.value.selector == CurrentSelectors(d).profileButton
    ensures Classify(r.result.value.selector).XPath? <==> d.isAndroid
  {
    Resolve(CurrentSelectors(d).profileButton)
  }

  function SettingsButton(d: Driver): (r: Run<Element>)
    ensures Resolved(r) && r.result.value.selector == CurrentSelectors(d).settingsButton
    ensures Classify(r.result.value.selector).XPath? <==> d.isAndroid
  {
    Resolve(CurrentSelectors(d).settingsButton)
  }

  /** Reads the welcome message once displayed: the text is passed on
      unchanged, and a refused wait is the failure. */
  function GetWelcomeMessageText(d: Driver, h: seq<Command>): (r: Run<string>)
    ensures var w := CurrentSelectors(d).welcomeMessage;
      && Follows(r, ReadOnScript(w))
      && (d.ack(h + [Find(w)], WaitDisplayed(Element(w), DefaultTimeout)).Ok? ==>
            r.result == d.text(h + [Find(w), WaitDisplayed(Element(w), DefaultTimeout)], ElementText(Element(w))))
      && (d.ack(h + [Find(w)], WaitDisplayed(Element(w), DefaultTimeout)).Err? ==>
            r == Run([Find(w), WaitDisplayed(Element(w), DefaultTimeout)],
                     Err(d.ack(h + [Find(w)], WaitDisplayed(Element(w), DefaultTimeout)).error)))
    ensures StopsAtFirstRefusal(d, h, r)
  {
    GetTextOn(d, h, WelcomeMessage(d))
  }

  function TapLogoutButton(d: Driver, h: seq<Command>): (r: Run<()>)
    ensures var s := CurrentSelectors(d).logoutButton;
      && Follows(r, TapOnScript(s))
      && (ElementClick(Element(s)) in r.trace <==> d.ack(h + [Find(s)], WaitDisplayed(Element(s), DefaultTimeout)).Ok?)
    ensures FailsAtLast(d, h, r) && StopsAtFirstRefusal(d, h, r)
  {
    TapOn(d, h, LogoutButton(d))
  }

  function TapProfileButton(d: Driver, h: seq<Command>): (r: Run<()>)
    ensures var s := CurrentSelectors(d).profileButton;
      && Follows(r, TapOnScript(s))
      && (ElementClick(Element(s)) in r.trace <==> d.ack(h + [Find(s)], WaitDisplayed(Element(s), DefaultTimeout)).Ok?)
    ensures FailsAtLast(d, h, r) && StopsAtFirstRefusal(d, h, r)
  {
    TapOn(d, h, ProfileButton(d))
  }

  function TapSettingsButton(d: Driver, h: seq<Command>): (r: Run<()>)
    ensures var s := CurrentSelectors(d).settingsButton;
      && Follows(r, TapOnScript(s))
      && (ElementClick(Element(s)) in r.trace <==> d.ack(h + [Find(s)], WaitDisplayed(Element(s), DefaultTimeout)).Ok?)
    ensures FailsAtLast(d, h, r) && StopsAtFirstRefusal(d, h, r)
  {
    TapOn(d, h, SettingsButton(d))
  }

  /** Each tap clicks its own element and none of the other two buttons. */
  lemma TapsClickOwnButton(d: Driver, h: seq<Command>)
    ensures var s := CurrentSelectors(d);
      && ElementClick(Element(s.profileButton)) !in TapLogoutButton(d, h).trace
      && ElementClick(Element(s.settingsButton)) !in TapLogoutButton(d, h).trace
      && ElementClick(Element(s.logoutButton)) !in TapProfileButton(d, h).trace
      && ElementClick(Element(s.settingsButton)) !in TapProfileButton(d, h).trace
      && ElementClick(Element(s.logoutButton)) !in TapSettingsButton(d, h).trace
      && ElementClick(Element(s.profileButton)) !in TapSettingsButton(d, h).trace
  {
    var s := CurrentSelectors(d);
    OnlyOwnClick(TapLogoutButton(d, h), s.logoutButton);
    OnlyOwnClick(TapProfileButton(d, h), s.profileButton);
    OnlyOwnClick(TapSettingsButton(d, h), s.settingsButton);
  }

  /** The only click a tap on `selector` can issue is on its element. */
  lemma OnlyOwnClick(r: Run<()>, selector: string)
    requires Follows(r, TapOnScript(selector))
    ensures forall other :: ElementClick(Element(other)) in r.trace ==> other == selector
  {
    forall other | ElementClick(Element(other)) in r.trace
      ensures other == selector
    {
      var i :| 0 <= i < |r.trace| && r.trace[i] == ElementClick(Element(other));
      assert r.trace[i] == TapOnScript(selector)[i];
    }
  }

  /** Only the welcome message is probed, and the probe never fails. */
  function IsDisplayed(d: Driver, h: seq<Command>): (r: Run<bool>)
    ensures var w := Element(CurrentSelectors(d).welcomeMessage);
      && r.trace == [Find(w.selector), ElementDisplayed(w)] && r.result.Ok?
      && r.result.value == (d.flag(h + [Find(w.selector)], ElementDisplayed(w)) == Ok(true))
  {
    IsDisplayedOn(d, h, WelcomeMessage(d))
  }

  /** One wait, on the welcome message, with the longer load timeout. */
  function WaitForScreenLoad(d: Driver, h: seq<Command>): (r: Run<()>)
    ensures Follows(r, AwaitOnScript(CurrentSelectors(d).welcomeMessage, LoadTimeout))
    ensures FailsAtLast(d, h, r) && StopsAtFirstRefusal(d, h, r)
  {
    WaitOn(d, h, WelcomeMessage(d), LoadTimeout)
  }
}
